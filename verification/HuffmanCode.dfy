/**
 * Huffman coding of octet strings (lib/nghttp2_hd_huffman.c) as functions: the
 * encoder over the symbol table, the decoder over the generated automaton, and
 * the proof that the decoder accepts exactly the encoder's outputs.
 */
module HuffmanCode {
  import opened Bytes
  import opened HuffmanTree
  import opened HuffmanTable

  // ----------------------------------------------- the symbol table as a code

  function Syms(t: Tree): set<nat>
  {
    match t
    case Leaf(s) => {s}
    case Node(l, r) => Syms(l) + Syms(r)
  }

  function TableBits(table: nat -> Sym, s: nat): Bits { BitsOf(table(s).nbits, table(s).code) }

  /** A leaf below `prefix` sits at the end of its own code. */
  lemma {:induction false} LeafAtCode(table: nat -> Sym, t: Tree, prefix: Bits, p: Bits)
    requires Spells(table, t, |prefix|, Value(prefix)) && OnTree(t, p) && At(t, p).Leaf?
    ensures At(t, p).sym <= EOS && table(At(t, p).sym) == Sym(|prefix + p|, Value(prefix + p))
    ensures TableBits(table, At(t, p).sym) == prefix + p && 5 <= |prefix + p| <= 30
    decreases |p|
  {
    if p == [] {
      assert prefix + p == prefix;
      BitsOfValue(prefix);
    } else {
      var q := prefix + [p[0]];
      assert q[..|q| - 1] == prefix;
      LeafAtCode(table, if p[0] then t.right else t.left, q, p[1..]);
      assert q + p[1..] == prefix + p;
    }
  }

  lemma LeafAtCodeFromRoot(table: nat -> Sym, t: Tree, p: Bits)
    requires IsCodeTree(table, t) && OnTree(t, p) && At(t, p).Leaf?
    ensures At(t, p).sym <= EOS && table(At(t, p).sym) == Sym(|p|, Value(p))
    ensures TableBits(table, At(t, p).sym) == p && 5 <= |p| <= 30
  {
    assert Value([]) == 0;
    LeafAtCode(table, t, [], p);
    assert [] + p == p;
  }

  /** The way from the top of `t` to a leaf carrying `s`. */
  function PathTo(t: Tree, s: nat): Bits
  {
    match t
    case Leaf(_) => []
    case Node(l, r) => if s in Syms(l) then [false] + PathTo(l, s) else [true] + PathTo(r, s)
  }

  lemma {:induction false} PathLeadsToSymbol(t: Tree, s: nat)
    requires s in Syms(t)
    ensures HasCode(t, s, PathTo(t, s))
    decreases t
  {
    match t
    case Leaf(_) =>
    case Node(l, r) =>
      PathLeadsToSymbol(if s in Syms(l) then l else r, s);
      assert PathTo(t, s)[1..] == PathTo(if s in Syms(l) then l else r, s);
  }

  /** Distinct leaves carry distinct symbols, because their codes differ. */
  lemma {:induction false} SymsDistinct(table: nat -> Sym, t: Tree, prefix: Bits)
    requires Spells(table, t, |prefix|, Value(prefix))
    ensures |Syms(t)| == LeafCount(t) && forall s | s in Syms(t) :: s <= EOS
    decreases t
  {
    match t
    case Leaf(_) =>
    case Node(l, r) =>
      var p0, p1 := prefix + [false], prefix + [true];
      assert p0[..|prefix|] == prefix && p1[..|prefix|] == prefix;
      SymsDistinct(table, l, p0);
      SymsDistinct(table, r, p1);
      forall s | s in Syms(l) ensures s !in Syms(r) {
        OnOneSide(table, l, r, prefix, s);
      }
      assert Syms(l) !! Syms(r);
  }

  /** A symbol on both sides of a node would have two codes. */
  lemma OnOneSide(table: nat -> Sym, l: Tree, r: Tree, prefix: Bits, s: nat)
    requires Spells(table, l, |prefix| + 1, Value(prefix + [false])) && s in Syms(l)
    requires Spells(table, r, |prefix| + 1, Value(prefix + [true]))
    ensures s !in Syms(r)
  {
    PathLeadsToSymbol(l, s);
    LeafAtCode(table, l, prefix + [false], PathTo(l, s));
    assert TableBits(table, s)[|prefix|] == false;
    if s in Syms(r) {
      PathLeadsToSymbol(r, s);
      LeafAtCode(table, r, prefix + [true], PathTo(r, s));
    }
  }

  /** The numbers below `n`. */
  function Below(n: nat): (r: set<nat>)
    ensures |r| == n && forall s: nat :: s in r <==> s < n
  {
    if n == 0 then {} else Below(n - 1) + {n - 1}
  }

  lemma SubsetOfSameSize(a: set<nat>, b: set<nat>)
    requires a <= b && |a| == |b|
    ensures a == b
  {
    assert b == a + (b - a);
  }

  /** Every symbol has a leaf, and the table writes the way to it. */
  lemma EverySymbolHasCode(table: nat -> Sym, t: Tree, s: nat)
    requires IsCodeTree(table, t) && s <= EOS
    ensures HasCode(t, s, PathTo(t, s)) && 5 <= |PathTo(t, s)| <= 30
    ensures TableBits(table, s) == PathTo(t, s)
  {
    assert Value([]) == 0;
    SymsDistinct(table, t, []);
    SubsetOfSameSize(Syms(t), Below(257));
    assert s in Below(257);
    PathLeadsToSymbol(t, s);
    LeafAtCodeFromRoot(table, t, PathTo(t, s));
  }

  lemma {:induction false} SpellsDeep(table: nat -> Sym, t: Tree, depth: nat, value: nat)
    requires Spells(table, t, depth, value) && depth <= 4
    ensures Deep(t, 4 - depth)
    decreases t
  {
    match t
    case Leaf(_) =>
    case Node(l, r) =>
      if depth < 4 {
        SpellsDeep(table, l, depth + 1, 2 * value);
        SpellsDeep(table, r, depth + 1, 2 * value + 1);
      }
  }

  lemma RootIsDeep()
    ensures Root.Node? && Deep(Root, 4) && Pending(Root, [])
  {
    var table := CodeTreeHasTable();
    SpellsDeep(table, Root, 0, 0);
  }

  lemma CodeLeadsToSymbol(s: nat)
    requires s <= EOS
    ensures HasCode(Root, s, PathTo(Root, s)) && 5 <= |PathTo(Root, s)| <= 30
  {
    var table := CodeTreeHasTable();
    EverySymbolHasCode(table, Root, s);
  }

  /** The code of a symbol: the path to its leaf. */
  ghost function Code(s: nat): (p: Bits)
    requires s <= EOS
    ensures 5 <= |p| <= 30
  {
    CodeLeadsToSymbol(s);
    PathTo(Root, s)
  }

  lemma OneCode(p: Bits)
    requires OnTree(Root, p) && At(Root, p).Leaf?
    ensures At(Root, p).sym <= EOS && Code(At(Root, p).sym) == p
  {
    var table := CodeTreeHasTable();
    LeafAtCodeFromRoot(table, Root, p);
    EverySymbolHasCode(table, Root, At(Root, p).sym);
  }

  /** `sym` writes the code `p` as a number. */
  predicate Writes(sym: Sym, p: Bits) { sym == Sym(|p|, Value(p)) }

  lemma TableWritesCode(s: nat)
    requires s <= EOS
    ensures Writes(SymOf(s), Code(s))
  {
    CodeTreeIsSource();
    EverySymbolHasCode(SymOf, Root, s);
    LeafAtCodeFromRoot(SymOf, Root, Code(s));
  }

  /** A table that gives every symbol the code of the tree. */
  ghost predicate IsSymTable(table: seq<Sym>)
  {
    |table| == 257 && forall s: nat {:trigger WritesCode(table, s)} | s <= EOS :: WritesCode(table, s)
  }

  /** The entry for `s` spells its code. */
  ghost predicate WritesCode(table: seq<Sym>, s: nat)
    requires s <= EOS < |table|
  {
    Writes(table[s], Code(s))
  }

  /** The table of the source. */
  function SourceTable(): (r: seq<Sym>)
    ensures |r| == 257 && forall s | 0 <= s < 257 :: r[s] == SymOf(s)
  {
    seq(257, s => SymOf(if s < 0 then 0 else s))
  }

  lemma SourceTableIsSymTable()
    ensures IsSymTable(SourceTable())
  {
    var table := SourceTable();
    forall s: nat | s <= EOS ensures WritesCode(table, s) { TableWritesCode(s); }
  }

  lemma {:induction false} BitsOfOnes(n: nat)
    ensures BitsOf(n, Pow2(n) - 1) == Ones(n)
  {
    if n > 0 {
      BitsOfOnes(n - 1);
      assert (Pow2(n) - 1) / 2 == Pow2(n - 1) - 1;
    }
  }

  lemma ThirtyOnes(p: Bits)
    requires Writes(Sym(30, 0x3fffffff), p)
    ensures p == Ones(30)
  {
    Pow2Values();
    BitsOfValue(p);
    BitsOfOnes(30);
  }

  lemma EosInTable()
    ensures Writes(Sym(30, 0x3fffffff), Code(EOS))
  {
    TableWritesCode(EOS);
    assert SymOf(EOS) == Sym(30, 0x3fffffff);
  }

  lemma EosIsAllOnes()
    ensures Code(EOS) == Ones(30)
  {
    EosInTable();
    ThirtyOnes(Code(EOS));
  }

  /** EOS is thirty ones, so fewer ones are always a pending prefix. */
  lemma OnesArePending(k: nat)
    requires k <= 29
    ensures Pending(Root, Ones(k))
  {
    EosIsAllOnes();
    CodeLeadsToSymbol(EOS);
    assert Ones(30) == Ones(k) + Ones(30 - k);
    AtConcat(Root, Ones(k), Ones(30 - k));
  }

  /** The codes of all symbols in the order of the source table. */
  function AllCodes(table: nat -> Sym): (r: seq<(nat, Bits)>)
    ensures |r| == 257 && forall i | 0 <= i < 257 :: r[i] == (i, TableBits(table, i))
  {
    seq(257, i requires 0 <= i => (i, TableBits(table, i)))
  }

  /** Entering the 257 codes of the table builds the code tree, with nothing missing. */
  lemma TableBuildsTree(table: nat -> Sym, t: Tree)
    requires IsCodeTree(table, t)
    ensures AddAll(NewNode, AllCodes(table)) == Finished(t)
  {
    var codes := AllCodes(table);
    forall i | 0 <= i < 257 ensures HasCode(t, codes[i].0, codes[i].1) {
      EverySymbolHasCode(table, t, i);
    }
    forall p | OnTree(t, p) && At(t, p).Leaf?
      ensures exists i :: 0 <= i < 257 && codes[i].1 == p
    {
      LeafAtCodeFromRoot(table, t, p);
      assert codes[At(t, p).sym].1 == p;
    }
    BuildGivesTree(t, codes);
  }

  // ----------------------------------------------------------------- encoding

  /** The codes of the octets of `src`, one after the other. */
  ghost function EncodeBits(src: seq<Byte>): Bits
  {
    if src == [] then [] else Code(src[0]) + EncodeBits(src[1..])
  }

  function PadBits(n: nat): (k: nat)
    ensures k < 8 && (n + k) % 8 == 0
  {
    (8 - n % 8) % 8
  }

  /** The encoded string: all codes, then ones up to the next octet boundary. */
  ghost function Encode(src: seq<Byte>): seq<Byte>
  {
    Pack(Padded(EncodeBits(src)))
  }

  function Padded(b: Bits): (r: Bits)
    ensures |r| % 8 == 0
  {
    b + Ones(PadBits(|b|))
  }

  /** The size the encoder predicts before encoding. */
  ghost function EncodeCount(src: seq<Byte>): nat { (|EncodeBits(src)| + 7) / 8 }

  lemma PadToOctets(n: nat)
    ensures n + PadBits(n) == 8 * ((n + 7) / 8)
  {}

  lemma EncodeLength(src: seq<Byte>)
    ensures |Encode(src)| == EncodeCount(src)
  {
    PadToOctets(|EncodeBits(src)|);
  }

  lemma {:induction false} EncodeBitsConcat(a: seq<Byte>, b: seq<Byte>)
    ensures EncodeBits(a + b) == EncodeBits(a) + EncodeBits(b)
    decreases |a|
  {
    if a == [] {
      assert a + b == b;
    } else {
      assert (a + b)[1..] == a[1..] + b;
      EncodeBitsConcat(a[1..], b);
    }
  }

  lemma EncodeBitsPrepend(b: Byte, s: seq<Byte>)
    ensures EncodeBits([b] + s) == Code(b) + EncodeBits(s)
  {
    assert ([b] + s)[1..] == s;
  }

  /** Walking the codes of a string emits the string. */
  lemma {:induction false} WalkEncoded(src: seq<Byte>)
    ensures Root.Node? && Pending(Root, [])
    ensures WalkBits(Root, [], EncodeBits(src)) == Walk([], src, false)
    decreases |src|
  {
    RootIsDeep();
    if src != [] {
      var c := Code(src[0]);
      CodeLeadsToSymbol(src[0]);
      assert [] + c == c;
      WalkCode(Root, [], c);
      WalkConcat(Root, [], c, EncodeBits(src[1..]));
      WalkEncoded(src[1..]);
      assert [src[0]] + src[1..] == src;
    }
  }

  /** A walk emits octets only. */
  lemma {:induction false} WalkEmitsOctets(p: Bits, bits: Bits)
    requires Root.Node? && Pending(Root, p)
    ensures forall i | 0 <= i < |WalkBits(Root, p, bits).out| :: WalkBits(Root, p, bits).out[i] < 256
    decreases |bits|
  {
    if bits != [] {
      var q := p + [bits[0]];
      PendingStep(Root, p, bits[0]);
      match At(Root, q)
      case Node(_, _) => WalkEmitsOctets(q, bits[1..]);
      case Leaf(s) =>
        RootIsDeep();
        OneCode(q);
        WalkEmitsOctets([], bits[1..]);
    }
  }

  /** The symbols of a walk as octets. */
  ghost function WalkOut(p: Bits, bits: Bits): seq<Byte>
    requires Root.Node? && Pending(Root, p)
  {
    WalkEmitsOctets(p, bits);
    WalkBits(Root, p, bits).out
  }

  /** Whatever a walk has read is the codes it emitted and the pending bits. */
  lemma {:induction false} WalkReadsCodes(p: Bits, bits: Bits)
    requires Root.Node? && Pending(Root, p) && !WalkBits(Root, p, bits).eos
    ensures p + bits == EncodeBits(WalkOut(p, bits)) + WalkBits(Root, p, bits).rest
    decreases |bits|
  {
    if bits == [] {
      assert EncodeBits([]) == [];
      assert p + bits == [] + p;
    } else {
      var q := p + [bits[0]];
      PendingStep(Root, p, bits[0]);
      assert p + bits == q + bits[1..];
      match At(Root, q)
      case Node(_, _) =>
        WalkReadsCodes(q, bits[1..]);
      case Leaf(s) =>
        RootIsDeep();
        OneCode(q);
        WalkReadsCodes([], bits[1..]);
        EncodeBitsPrepend(s, WalkOut([], bits[1..]));
        assert [] + bits[1..] == bits[1..];
    }
  }

  // ----------------------------------------------------------------- decoding

  /** The decoder's state between calls: automaton state and acceptance. */
  datatype Context = Context(state: nat, accept: bool)

  const InitialContext: Context := Context(0, true)

  /** The generated decoding table of the HPACK code. */
  ghost function DecodeTable(): seq<seq<Cell>>
  {
    RootIsDeep();
    Table(Root)
  }

  /** `ctx` is the automaton state after the pending bits `p`. */
  ghost predicate Tracks(ctx: Context, p: Bits)
  {
    Root.Node? && Pending(Root, p) && ctx == Context(StateOf(Root, p), Accepting(p))
  }

  lemma InitialTracks()
    ensures Tracks(InitialContext, [])
  {
    RootIsDeep();
  }

  /** Reading octets with `p` pending. */
  ghost function Decode(p: Bits, src: seq<Byte>): Walk
    requires Root.Node? && Pending(Root, p)
  {
    WalkBits(Root, p, BytesToBits(src))
  }

  /** A complete string is accepted if no EOS completes and only padding is left. */
  ghost predicate Accepts(src: seq<Byte>)
  {
    RootIsDeep();
    var w := Decode([], src);
    !w.eos && Accepting(w.rest)
  }

  /** The cell for `ctx` and the nibble `n` says what four steps of the walk do with `p` pending. */
  ghost predicate WalksAs(table: seq<seq<Cell>>, ctx: Context, p: Bits, n: nat)
    requires Root.Node? && Pending(Root, p) && n < 16
  {
    && ctx.state < |table| && |table[ctx.state]| == 16
    && var c := table[ctx.state][n];
       var w := WalkBits(Root, p, BitsOf(4, n));
       && c.fail == w.eos
       && (c.fail ==> w.out == [])
       && (!c.fail ==>
             && Tracks(Context(c.state, c.accepted), w.rest)
             && w.out == (if c.emit then [c.sym] else [])
             && (c.emit ==> c.sym < 256))
  }

  /** A table that answers like the walk, in every context that is reached. */
  ghost predicate IsDecodeTable(table: seq<seq<Cell>>)
  {
    forall ctx: Context, p: Bits, n: nat {:trigger WalksAs(table, ctx, p, n)} | Tracks(ctx, p) && n < 16 :: WalksAs(table, ctx, p, n)
  }

  /** One row access of the generated table is four steps of the walk. */
  lemma TableStep(ctx: Context, p: Bits, n: nat)
    requires Tracks(ctx, p) && n < 16
    ensures WalksAs(DecodeTable(), ctx, p, n)
  {
    RootIsDeep();
    var c := CellAt(Root, p, n);
    RowInTable(Root, p);
    TableIsWalk(Root, p, n);
    WalkEmitsOctets(p, BitsOf(4, n));
    if c.emit && !c.fail { assert WalkBits(Root, p, BitsOf(4, n)).out[0] == c.sym; }
  }

  lemma GeneratedTableDecodes()
    ensures IsDecodeTable(DecodeTable())
  {
    var table := DecodeTable();
    forall ctx: Context, p: Bits, n: nat | Tracks(ctx, p) && n < 16 ensures WalksAs(table, ctx, p, n) { TableStep(ctx, p, n); }
  }

  /** Decoding undoes encoding: all octets come back, nothing but padding is left. */
  lemma DecodeEncode(s: seq<Byte>)
    ensures Root.Node? && Pending(Root, [])
    ensures Decode([], Encode(s)) == Walk(Ones(PadBits(|EncodeBits(s)|)), s, false)
    ensures Accepts(Encode(s))
  {
    RootIsDeep();
    var b := EncodeBits(s);
    var pad := Ones(PadBits(|b|));
    UnpackPack(Padded(b));
    WalkConcat(Root, [], b, pad);
    WalkEncoded(s);
    OnesArePending(|pad|);
    assert [] + pad == pad;
    WalkPending(Root, [], pad);
    assert s + [] == s;
  }

  /** Only encodings are accepted, and only as the string they encode. */
  lemma AcceptedIsEncoding(src: seq<Byte>)
    requires Accepts(src)
    ensures Root.Node? && Pending(Root, [])
    ensures Encode(WalkOut([], BytesToBits(src))) == src
  {
    RootIsDeep();
    var bits := BytesToBits(src);
    WalkReadsCodes([], bits);
    assert [] + bits == bits;
    OnlyPadding(src, EncodeBits(WalkOut([], bits)), WalkBits(Root, [], bits).rest);
  }

  lemma OnlyPadding(src: seq<Byte>, e: Bits, rest: Bits)
    requires BytesToBits(src) == e + rest && Accepting(rest)
    ensures Pack(Padded(e)) == src
  {
    assert rest == Ones(|rest|);
    PadIsUnique(|e|, |rest|);
    PackUnpack(src);
  }

  lemma PadIsUnique(n: nat, k: nat)
    requires k < 8 && (n + k) % 8 == 0
    ensures k == PadBits(n)
  {}

  /** The decoder accepts exactly the outputs of the encoder. */
  lemma AcceptsIffEncoding(src: seq<Byte>)
    ensures Accepts(src) <==> exists s :: src == Encode(s)
  {
    if Accepts(src) {
      AcceptedIsEncoding(src);
    }
    if s :| src == Encode(s) {
      DecodeEncode(s);
    }
  }
}
