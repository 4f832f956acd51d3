/**
 * The HPACK Huffman code (lib/nghttp2_hd_huffman_data.c): the symbol table, the
 * code tree it spells and the proof that the two agree on all 257 symbols.
 */
module HuffmanTable {
  import opened Bytes
  import opened HuffmanTree

  /** Number of bits and code aligned to the least significant bit. */
  datatype Sym = Sym(nbits: nat, code: nat)

  function SymOf(s: nat): Sym
  {
    match s / 16
    case 0 => Syms0(s % 16)
    case 1 => Syms1(s % 16)
    case 2 => Syms2(s % 16)
    case 3 => Syms3(s % 16)
    case 4 => Syms4(s % 16)
    case 5 => Syms5(s % 16)
    case 6 => Syms6(s % 16)
    case 7 => Syms7(s % 16)
    case 8 => Syms8(s % 16)
    case 9 => Syms9(s % 16)
    case 10 => SymsA(s % 16)
    case 11 => SymsB(s % 16)
    case 12 => SymsC(s % 16)
    case 13 => SymsD(s % 16)
    case 14 => SymsE(s % 16)
    case 15 => SymsF(s % 16)
    case _ => Sym(30, 0x3fffffff)
  }

  function Syms0(low: nat): Sym
  {
    match low
    case 0 => Sym(13, 0x1ff8)
    case 1 => Sym(23, 0x7fffd8)
    case 2 => Sym(28, 0xfffffe2)
    case 3 => Sym(28, 0xfffffe3)
    case 4 => Sym(28, 0xfffffe4)
    case 5 => Sym(28, 0xfffffe5)
    case 6 => Sym(28, 0xfffffe6)
    case 7 => Sym(28, 0xfffffe7)
    case 8 => Sym(28, 0xfffffe8)
    case 9 => Sym(24, 0xffffea)
    case 10 => Sym(30, 0x3ffffffc)
    case 11 => Sym(28, 0xfffffe9)
    case 12 => Sym(28, 0xfffffea)
    case 13 => Sym(30, 0x3ffffffd)
    case 14 => Sym(28, 0xfffffeb)
    case _ => Sym(28, 0xfffffec)
  }

  function Syms1(low: nat): Sym
  {
    match low
    case 0 => Sym(28, 0xfffffed)
    case 1 => Sym(28, 0xfffffee)
    case 2 => Sym(28, 0xfffffef)
    case 3 => Sym(28, 0xffffff0)
    case 4 => Sym(28, 0xffffff1)
    case 5 => Sym(28, 0xffffff2)
    case 6 => Sym(30, 0x3ffffffe)
    case 7 => Sym(28, 0xffffff3)
    case 8 => Sym(28, 0xffffff4)
    case 9 => Sym(28, 0xffffff5)
    case 10 => Sym(28, 0xffffff6)
    case 11 => Sym(28, 0xffffff7)
    case 12 => Sym(28, 0xffffff8)
    case 13 => Sym(28, 0xffffff9)
    case 14 => Sym(28, 0xffffffa)
    case _ => Sym(28, 0xffffffb)
  }

  function Syms2(low: nat): Sym
  {
    match low
    case 0 => Sym(6, 0x14)
    case 1 => Sym(10, 0x3f8)
    case 2 => Sym(10, 0x3f9)
    case 3 => Sym(12, 0xffa)
    case 4 => Sym(13, 0x1ff9)
    case 5 => Sym(6, 0x15)
    case 6 => Sym(8, 0xf8)
    case 7 => Sym(11, 0x7fa)
    case 8 => Sym(10, 0x3fa)
    case 9 => Sym(10, 0x3fb)
    case 10 => Sym(8, 0xf9)
    case 11 => Sym(11, 0x7fb)
    case 12 => Sym(8, 0xfa)
    case 13 => Sym(6, 0x16)
    case 14 => Sym(6, 0x17)
    case _ => Sym(6, 0x18)
  }

  function Syms3(low: nat): Sym
  {
    match low
    case 0 => Sym(5, 0x0)
    case 1 => Sym(5, 0x1)
    case 2 => Sym(5, 0x2)
    case 3 => Sym(6, 0x19)
    case 4 => Sym(6, 0x1a)
    case 5 => Sym(6, 0x1b)
    case 6 => Sym(6, 0x1c)
    case 7 => Sym(6, 0x1d)
    case 8 => Sym(6, 0x1e)
    case 9 => Sym(6, 0x1f)
    case 10 => Sym(7, 0x5c)
    case 11 => Sym(8, 0xfb)
    case 12 => Sym(15, 0x7ffc)
    case 13 => Sym(6, 0x20)
    case 14 => Sym(12, 0xffb)
    case _ => Sym(10, 0x3fc)
  }

  function Syms4(low: nat): Sym
  {
    match low
    case 0 => Sym(13, 0x1ffa)
    case 1 => Sym(6, 0x21)
    case 2 => Sym(7, 0x5d)
    case 3 => Sym(7, 0x5e)
    case 4 => Sym(7, 0x5f)
    case 5 => Sym(7, 0x60)
    case 6 => Sym(7, 0x61)
    case 7 => Sym(7, 0x62)
    case 8 => Sym(7, 0x63)
    case 9 => Sym(7, 0x64)
    case 10 => Sym(7, 0x65)
    case 11 => Sym(7, 0x66)
    case 12 => Sym(7, 0x67)
    case 13 => Sym(7, 0x68)
    case 14 => Sym(7, 0x69)
    case _ => Sym(7, 0x6a)
  }

  function Syms5(low: nat): Sym
  {
    match low
    case 0 => Sym(7, 0x6b)
    case 1 => Sym(7, 0x6c)
    case 2 => Sym(7, 0x6d)
    case 3 => Sym(7, 0x6e)
    case 4 => Sym(7, 0x6f)
    case 5 => Sym(7, 0x70)
    case 6 => Sym(7, 0x71)
    case 7 => Sym(7, 0x72)
    case 8 => Sym(8, 0xfc)
    case 9 => Sym(7, 0x73)
    case 10 => Sym(8, 0xfd)
    case 11 => Sym(13, 0x1ffb)
    case 12 => Sym(19, 0x7fff0)
    case 13 => Sym(13, 0x1ffc)
    case 14 => Sym(14, 0x3ffc)
    case _ => Sym(6, 0x22)
  }

  function Syms6(low: nat): Sym
  {
    match low
    case 0 => Sym(15, 0x7ffd)
    case 1 => Sym(5, 0x3)
    case 2 => Sym(6, 0x23)
    case 3 => Sym(5, 0x4)
    case 4 => Sym(6, 0x24)
    case 5 => Sym(5, 0x5)
    case 6 => Sym(6, 0x25)
    case 7 => Sym(6, 0x26)
    case 8 => Sym(6, 0x27)
    case 9 => Sym(5, 0x6)
    case 10 => Sym(7, 0x74)
    case 11 => Sym(7, 0x75)
    case 12 => Sym(6, 0x28)
    case 13 => Sym(6, 0x29)
    case 14 => Sym(6, 0x2a)
    case _ => Sym(5, 0x7)
  }

  function Syms7(low: nat): Sym
  {
    match low
    case 0 => Sym(6, 0x2b)
    case 1 => Sym(7, 0x76)
    case 2 => Sym(6, 0x2c)
    case 3 => Sym(5, 0x8)
    case 4 => Sym(5, 0x9)
    case 5 => Sym(6, 0x2d)
    case 6 => Sym(7, 0x77)
    case 7 => Sym(7, 0x78)
    case 8 => Sym(7, 0x79)
    case 9 => Sym(7, 0x7a)
    case 10 => Sym(7, 0x7b)
    case 11 => Sym(15, 0x7ffe)
    case 12 => Sym(11, 0x7fc)
    case 13 => Sym(14, 0x3ffd)
    case 14 => Sym(13, 0x1ffd)
    case _ => Sym(28, 0xffffffc)
  }

  function Syms8(low: nat): Sym
  {
    match low
    case 0 => Sym(20, 0xfffe6)
    case 1 => Sym(22, 0x3fffd2)
    case 2 => Sym(20, 0xfffe7)
    case 3 => Sym(20, 0xfffe8)
    case 4 => Sym(22, 0x3fffd3)
    case 5 => Sym(22, 0x3fffd4)
    case 6 => Sym(22, 0x3fffd5)
    case 7 => Sym(23, 0x7fffd9)
    case 8 => Sym(22, 0x3fffd6)
    case 9 => Sym(23, 0x7fffda)
    case 10 => Sym(23, 0x7fffdb)
    case 11 => Sym(23, 0x7fffdc)
    case 12 => Sym(23, 0x7fffdd)
    case 13 => Sym(23, 0x7fffde)
    case 14 => Sym(24, 0xffffeb)
    case _ => Sym(23, 0x7fffdf)
  }

  function Syms9(low: nat): Sym
  {
    match low
    case 0 => Sym(24, 0xffffec)
    case 1 => Sym(24, 0xffffed)
    case 2 => Sym(22, 0x3fffd7)
    case 3 => Sym(23, 0x7fffe0)
    case 4 => Sym(24, 0xffffee)
    case 5 => Sym(23, 0x7fffe1)
    case 6 => Sym(23, 0x7fffe2)
    case 7 => Sym(23, 0x7fffe3)
    case 8 => Sym(23, 0x7fffe4)
    case 9 => Sym(21, 0x1fffdc)
    case 10 => Sym(22, 0x3fffd8)
    case 11 => Sym(23, 0x7fffe5)
    case 12 => Sym(22, 0x3fffd9)
    case 13 => Sym(23, 0x7fffe6)
    case 14 => Sym(23, 0x7fffe7)
    case _ => Sym(24, 0xffffef)
  }

  function SymsA(low: nat): Sym
  {
    match low
    case 0 => Sym(22, 0x3fffda)
    case 1 => Sym(21, 0x1fffdd)
    case 2 => Sym(20, 0xfffe9)
    case 3 => Sym(22, 0x3fffdb)
    case 4 => Sym(22, 0x3fffdc)
    case 5 => Sym(23, 0x7fffe8)
    case 6 => Sym(23, 0x7fffe9)
    case 7 => Sym(21, 0x1fffde)
    case 8 => Sym(23, 0x7fffea)
    case 9 => Sym(22, 0x3fffdd)
    case 10 => Sym(22, 0x3fffde)
    case 11 => Sym(24, 0xfffff0)
    case 12 => Sym(21, 0x1fffdf)
    case 13 => Sym(22, 0x3fffdf)
    case 14 => Sym(23, 0x7fffeb)
    case _ => Sym(23, 0x7fffec)
  }

  function SymsB(low: nat): Sym
  {
    match low
    case 0 => Sym(21, 0x1fffe0)
    case 1 => Sym(21, 0x1fffe1)
    case 2 => Sym(22, 0x3fffe0)
    case 3 => Sym(21, 0x1fffe2)
    case 4 => Sym(23, 0x7fffed)
    case 5 => Sym(22, 0x3fffe1)
    case 6 => Sym(23, 0x7fffee)
    case 7 => Sym(23, 0x7fffef)
    case 8 => Sym(20, 0xfffea)
    case 9 => Sym(22, 0x3fffe2)
    case 10 => Sym(22, 0x3fffe3)
    case 11 => Sym(22, 0x3fffe4)
    case 12 => Sym(23, 0x7ffff0)
    case 13 => Sym(22, 0x3fffe5)
    case 14 => Sym(22, 0x3fffe6)
    case _ => Sym(23, 0x7ffff1)
  }

  function SymsC(low: nat): Sym
  {
    match low
    case 0 => Sym(26, 0x3ffffe0)
    case 1 => Sym(26, 0x3ffffe1)
    case 2 => Sym(20, 0xfffeb)
    case 3 => Sym(19, 0x7fff1)
    case 4 => Sym(22, 0x3fffe7)
    case 5 => Sym(23, 0x7ffff2)
    case 6 => Sym(22, 0x3fffe8)
    case 7 => Sym(25, 0x1ffffec)
    case 8 => Sym(26, 0x3ffffe2)
    case 9 => Sym(26, 0x3ffffe3)
    case 10 => Sym(26, 0x3ffffe4)
    case 11 => Sym(27, 0x7ffffde)
    case 12 => Sym(27, 0x7ffffdf)
    case 13 => Sym(26, 0x3ffffe5)
    case 14 => Sym(24, 0xfffff1)
    case _ => Sym(25, 0x1ffffed)
  }

  function SymsD(low: nat): Sym
  {
    match low
    case 0 => Sym(19, 0x7fff2)
    case 1 => Sym(21, 0x1fffe3)
    case 2 => Sym(26, 0x3ffffe6)
    case 3 => Sym(27, 0x7ffffe0)
    case 4 => Sym(27, 0x7ffffe1)
    case 5 => Sym(26, 0x3ffffe7)
    case 6 => Sym(27, 0x7ffffe2)
    case 7 => Sym(24, 0xfffff2)
    case 8 => Sym(21, 0x1fffe4)
    case 9 => Sym(21, 0x1fffe5)
    case 10 => Sym(26, 0x3ffffe8)
    case 11 => Sym(26, 0x3ffffe9)
    case 12 => Sym(28, 0xffffffd)
    case 13 => Sym(27, 0x7ffffe3)
    case 14 => Sym(27, 0x7ffffe4)
    case _ => Sym(27, 0x7ffffe5)
  }

  function SymsE(low: nat): Sym
  {
    match low
    case 0 => Sym(20, 0xfffec)
    case 1 => Sym(24, 0xfffff3)
    case 2 => Sym(20, 0xfffed)
    case 3 => Sym(21, 0x1fffe6)
    case 4 => Sym(22, 0x3fffe9)
    case 5 => Sym(21, 0x1fffe7)
    case 6 => Sym(21, 0x1fffe8)
    case 7 => Sym(23, 0x7ffff3)
    case 8 => Sym(22, 0x3fffea)
    case 9 => Sym(22, 0x3fffeb)
    case 10 => Sym(25, 0x1ffffee)
    case 11 => Sym(25, 0x1ffffef)
    case 12 => Sym(24, 0xfffff4)
    case 13 => Sym(24, 0xfffff5)
    case 14 => Sym(26, 0x3ffffea)
    case _ => Sym(23, 0x7ffff4)
  }

  function SymsF(low: nat): Sym
  {
    match low
    case 0 => Sym(26, 0x3ffffeb)
    case 1 => Sym(27, 0x7ffffe6)
    case 2 => Sym(26, 0x3ffffec)
    case 3 => Sym(26, 0x3ffffed)
    case 4 => Sym(27, 0x7ffffe7)
    case 5 => Sym(27, 0x7ffffe8)
    case 6 => Sym(27, 0x7ffffe9)
    case 7 => Sym(27, 0x7ffffea)
    case 8 => Sym(27, 0x7ffffeb)
    case 9 => Sym(28, 0xffffffe)
    case 10 => Sym(27, 0x7ffffec)
    case 11 => Sym(27, 0x7ffffed)
    case 12 => Sym(27, 0x7ffffee)
    case 13 => Sym(27, 0x7ffffef)
    case 14 => Sym(27, 0x7fffff0)
    case _ => Sym(26, 0x3ffffee)
  }

  function LeafCount(t: Tree): nat
  {
    match t
    case Leaf(_) => 1
    case Node(l, r) => LeafCount(l) + LeafCount(r)
  }

  /** Below a path of `depth` bits reading `value`, every leaf is where `table` puts it. */
  predicate Spells(table: nat -> Sym, t: Tree, depth: nat, value: nat)
    decreases t
  {
    match t
    case Leaf(s) => s <= EOS && table(s) == Sym(depth, value) && 5 <= depth <= 30
    case Node(l, r) => Spells(table, l, depth + 1, 2 * value) && Spells(table, r, depth + 1, 2 * value + 1)
  }

  /** `t` is the tree of a symbol table: 257 leaves, each where the table puts it. */
  predicate IsCodeTree(table: nat -> Sym, t: Tree) { Spells(table, t, 0, 0) && LeafCount(t) == 257 }

  // ------------------------------------------ the table spells a complete tree

  /** Some tree with `n` leaves spells the codes below a path of `depth` bits reading `value`. */
  ghost predicate Spelled(depth: nat, value: nat, n: nat)
  {
    exists t :: Spells(SymOf, t, depth, value) && LeafCount(t) == n
  }

  lemma Join(depth: nat, value: nat, m: nat, n: nat)
    requires Spelled(depth + 1, 2 * value, m)
    requires Spelled(depth + 1, 2 * value + 1, n)
    ensures Spelled(depth, value, m + n)
  {
    var l :| Spells(SymOf, l, depth + 1, 2 * value) && LeafCount(l) == m;
    var r :| Spells(SymOf, r, depth + 1, 2 * value + 1) && LeafCount(r) == n;
    assert Spells(SymOf, Node(l, r), depth, value) && LeafCount(Node(l, r)) == m + n;
  }

  const CodesAfter0Ones: Tree :=
    Node(Node(Node(Node(Leaf(48), Leaf(49)), Node(Leaf(50), Leaf(97))), Node(Node(Leaf(99), Leaf(101)),
    Node(Leaf(105), Leaf(111)))), Node(Node(Node(Leaf(115), Leaf(116)), Node(Node(Leaf(32), Leaf(37)),
    Node(Leaf(45), Leaf(46)))), Node(Node(Node(Leaf(47), Leaf(51)), Node(Leaf(52), Leaf(53))),
    Node(Node(Leaf(54), Leaf(55)), Node(Leaf(56), Leaf(57))))))

  const CodesAfter1Ones: Tree :=
    Node(Node(Node(Node(Leaf(61), Leaf(65)), Node(Leaf(95), Leaf(98))), Node(Node(Leaf(100), Leaf(102)),
    Node(Leaf(103), Leaf(104)))), Node(Node(Node(Leaf(108), Leaf(109)), Node(Leaf(110), Leaf(112))),
    Node(Node(Leaf(114), Leaf(117)), Node(Node(Leaf(58), Leaf(66)), Node(Leaf(67), Leaf(68))))))

  const CodesAfter2Ones: Tree :=
    Node(Node(Node(Node(Leaf(69), Leaf(70)), Node(Leaf(71), Leaf(72))), Node(Node(Leaf(73), Leaf(74)),
    Node(Leaf(75), Leaf(76)))), Node(Node(Node(Leaf(77), Leaf(78)), Node(Leaf(79), Leaf(80))),
    Node(Node(Leaf(81), Leaf(82)), Node(Leaf(83), Leaf(84)))))

  const CodesAfter3Ones: Tree :=
    Node(Node(Node(Leaf(85), Leaf(86)), Node(Leaf(87), Leaf(89))), Node(Node(Leaf(106), Leaf(107)),
    Node(Leaf(113), Leaf(118))))

  const CodesAfter4Ones: Tree :=
    Node(Node(Leaf(119), Leaf(120)), Node(Leaf(121), Leaf(122)))

  const CodesAfter5Ones: Tree :=
    Node(Node(Leaf(38), Leaf(42)), Node(Leaf(44), Leaf(59)))

  const CodesAfter6Ones: Tree :=
    Node(Leaf(88), Leaf(90))

  const CodesAfter7Ones: Tree :=
    Node(Node(Leaf(33), Leaf(34)), Node(Leaf(40), Leaf(41)))

  const CodesAfter8Ones: Tree :=
    Node(Leaf(63), Node(Leaf(39), Leaf(43)))

  const CodesAfter9Ones: Tree :=
    Node(Leaf(124), Node(Leaf(35), Leaf(62)))

  const CodesAfter10Ones: Tree :=
    Node(Node(Leaf(0), Leaf(36)), Node(Leaf(64), Leaf(91)))

  const CodesAfter11Ones: Tree :=
    Node(Leaf(93), Leaf(126))

  const CodesAfter12Ones: Tree :=
    Node(Leaf(94), Leaf(125))

  const CodesAfter13Ones: Tree :=
    Node(Leaf(60), Leaf(96))

  const CodesAfter14Ones: Tree :=
    Leaf(123)

  const CodesAfter15Ones: Tree :=
    Node(Node(Node(Leaf(92), Leaf(195)), Node(Leaf(208), Node(Leaf(128), Leaf(130)))),
    Node(Node(Node(Leaf(131), Leaf(162)), Node(Leaf(184), Leaf(194))), Node(Node(Leaf(224), Leaf(226)),
    Node(Node(Leaf(153), Leaf(161)), Node(Leaf(167), Leaf(172))))))

  const CodesAfter16OnesThen0: Tree :=
    Node(Node(Node(Leaf(176), Leaf(177)), Node(Leaf(179), Leaf(209))), Node(Node(Leaf(216), Leaf(217)),
    Node(Leaf(227), Leaf(229))))

  const CodesAfter16OnesThen1: Tree :=
    Node(Node(Node(Leaf(230), Node(Leaf(129), Leaf(132))), Node(Node(Leaf(133), Leaf(134)), Node(Leaf(136),
    Leaf(146)))), Node(Node(Node(Leaf(154), Leaf(156)), Node(Leaf(160), Leaf(163))), Node(Node(Leaf(164),
    Leaf(169)), Node(Leaf(170), Leaf(173)))))

  const CodesAfter17Ones: Tree :=
    Node(Node(Node(Node(Leaf(178), Leaf(181)), Node(Leaf(185), Leaf(186))), Node(Node(Leaf(187), Leaf(189)),
    Node(Leaf(190), Leaf(196)))), Node(Node(Node(Leaf(198), Leaf(228)), Node(Leaf(232), Leaf(233))),
    Node(Node(Node(Leaf(1), Leaf(135)), Node(Leaf(137), Leaf(138))), Node(Node(Leaf(139), Leaf(140)),
    Node(Leaf(141), Leaf(143))))))

  const CodesAfter18Ones: Tree :=
    Node(Node(Node(Node(Leaf(147), Leaf(149)), Node(Leaf(150), Leaf(151))), Node(Node(Leaf(152), Leaf(155)),
    Node(Leaf(157), Leaf(158)))), Node(Node(Node(Leaf(165), Leaf(166)), Node(Leaf(168), Leaf(174))),
    Node(Node(Leaf(175), Leaf(180)), Node(Leaf(182), Leaf(183)))))

  const CodesAfter19Ones: Tree :=
    Node(Node(Node(Leaf(188), Leaf(191)), Node(Leaf(197), Leaf(231))), Node(Node(Leaf(239), Node(Leaf(9),
    Leaf(142))), Node(Node(Leaf(144), Leaf(145)), Node(Leaf(148), Leaf(159)))))

  const CodesAfter20Ones: Tree :=
    Node(Node(Node(Leaf(171), Leaf(206)), Node(Leaf(215), Leaf(225))), Node(Node(Leaf(236), Leaf(237)),
    Node(Node(Leaf(199), Leaf(207)), Node(Leaf(234), Leaf(235)))))

  const CodesAfter21Ones: Tree :=
    Node(Node(Node(Node(Leaf(192), Leaf(193)), Node(Leaf(200), Leaf(201))), Node(Node(Leaf(202), Leaf(205)),
    Node(Leaf(210), Leaf(213)))), Node(Node(Node(Leaf(218), Leaf(219)), Node(Leaf(238), Leaf(240))),
    Node(Node(Leaf(242), Leaf(243)), Node(Leaf(255), Node(Leaf(203), Leaf(204))))))

  const CodesAfter22Ones: Tree :=
    Node(Node(Node(Node(Leaf(211), Leaf(212)), Node(Leaf(214), Leaf(221))), Node(Node(Leaf(222), Leaf(223)),
    Node(Leaf(241), Leaf(244)))), Node(Node(Node(Leaf(245), Leaf(246)), Node(Leaf(247), Leaf(248))),
    Node(Node(Leaf(250), Leaf(251)), Node(Leaf(252), Leaf(253)))))

  const CodesAfter23Ones: Tree :=
    Node(Node(Node(Leaf(254), Node(Leaf(2), Leaf(3))), Node(Node(Leaf(4), Leaf(5)), Node(Leaf(6), Leaf(7)))),
    Node(Node(Node(Leaf(8), Leaf(11)), Node(Leaf(12), Leaf(14))), Node(Node(Leaf(15), Leaf(16)),
    Node(Leaf(17), Leaf(18)))))

  const CodesOf24Ones: Tree :=
    Node(Node(Node(Node(Leaf(19), Leaf(20)), Node(Leaf(21), Leaf(23))), Node(Node(Leaf(24), Leaf(25)),
    Node(Leaf(26), Leaf(27)))), Node(Node(Node(Leaf(28), Leaf(29)), Node(Leaf(30), Leaf(31))),
    Node(Node(Leaf(127), Leaf(220)), Node(Leaf(249), Node(Node(Leaf(10), Leaf(13)), Node(Leaf(22),
    Leaf(256)))))))

  lemma SpelledCodesAfter0Ones()
    ensures Spelled(1, 0x0, 22)
  {
    assert Spells(SymOf, CodesAfter0Ones, 1, 0x0) && LeafCount(CodesAfter0Ones) == 22;
  }

  lemma SpelledCodesAfter1Ones()
    ensures Spelled(2, 0x2, 18)
  {
    assert Spells(SymOf, CodesAfter1Ones, 2, 0x2) && LeafCount(CodesAfter1Ones) == 18;
  }

  lemma SpelledCodesAfter2Ones()
    ensures Spelled(3, 0x6, 16)
  {
    assert Spells(SymOf, CodesAfter2Ones, 3, 0x6) && LeafCount(CodesAfter2Ones) == 16;
  }

  lemma SpelledCodesAfter3Ones()
    ensures Spelled(4, 0xe, 8)
  {
    assert Spells(SymOf, CodesAfter3Ones, 4, 0xe) && LeafCount(CodesAfter3Ones) == 8;
  }

  lemma SpelledCodesAfter4To5Ones()
    ensures Spelled(5, 0x1e, 4)
    ensures Spelled(6, 0x3e, 4)
  {
    assert Spells(SymOf, CodesAfter4Ones, 5, 0x1e) && LeafCount(CodesAfter4Ones) == 4;
    assert Spells(SymOf, CodesAfter5Ones, 6, 0x3e) && LeafCount(CodesAfter5Ones) == 4;
  }

  lemma SpelledCodesAfter6To7Ones()
    ensures Spelled(7, 0x7e, 2)
    ensures Spelled(8, 0xfe, 4)
  {
    assert Spells(SymOf, CodesAfter6Ones, 7, 0x7e) && LeafCount(CodesAfter6Ones) == 2;
    assert Spells(SymOf, CodesAfter7Ones, 8, 0xfe) && LeafCount(CodesAfter7Ones) == 4;
  }

  lemma SpelledCodesAfter8To9Ones()
    ensures Spelled(9, 0x1fe, 3)
    ensures Spelled(10, 0x3fe, 3)
  {
    assert Spells(SymOf, CodesAfter8Ones, 9, 0x1fe) && LeafCount(CodesAfter8Ones) == 3;
    assert Spells(SymOf, CodesAfter9Ones, 10, 0x3fe) && LeafCount(CodesAfter9Ones) == 3;
  }

  lemma SpelledCodesAfter10To11Ones()
    ensures Spelled(11, 0x7fe, 4)
    ensures Spelled(12, 0xffe, 2)
  {
    assert Spells(SymOf, CodesAfter10Ones, 11, 0x7fe) && LeafCount(CodesAfter10Ones) == 4;
    assert Spells(SymOf, CodesAfter11Ones, 12, 0xffe) && LeafCount(CodesAfter11Ones) == 2;
  }

  lemma SpelledCodesAfter12To14Ones()
    ensures Spelled(13, 0x1ffe, 2)
    ensures Spelled(14, 0x3ffe, 2)
    ensures Spelled(15, 0x7ffe, 1)
  {
    assert Spells(SymOf, CodesAfter12Ones, 13, 0x1ffe) && LeafCount(CodesAfter12Ones) == 2;
    assert Spells(SymOf, CodesAfter13Ones, 14, 0x3ffe) && LeafCount(CodesAfter13Ones) == 2;
    assert Spells(SymOf, CodesAfter14Ones, 15, 0x7ffe) && LeafCount(CodesAfter14Ones) == 1;
  }

  lemma SpelledCodesAfter15Ones()
    ensures Spelled(16, 0xfffe, 15)
  {
    assert Spells(SymOf, CodesAfter15Ones, 16, 0xfffe) && LeafCount(CodesAfter15Ones) == 15;
  }

  lemma SpelledCodesAfter16OnesThen0()
    ensures Spelled(18, 0x3fffc, 8)
  {
    assert Spells(SymOf, CodesAfter16OnesThen0, 18, 0x3fffc) && LeafCount(CodesAfter16OnesThen0) == 8;
  }

  lemma SpelledCodesAfter16OnesThen1()
    ensures Spelled(18, 0x3fffd, 15)
  {
    assert Spells(SymOf, CodesAfter16OnesThen1, 18, 0x3fffd) && LeafCount(CodesAfter16OnesThen1) == 15;
  }

  lemma SpelledCodesAfter16Ones()
    ensures Spelled(17, 0x1fffe, 23)
  {
    SpelledCodesAfter16OnesThen0();
    SpelledCodesAfter16OnesThen1();
    Join(17, 0x1fffe, 8, 15);
  }

  lemma SpelledCodesAfter17Ones()
    ensures Spelled(18, 0x3fffe, 20)
  {
    assert Spells(SymOf, CodesAfter17Ones, 18, 0x3fffe) && LeafCount(CodesAfter17Ones) == 20;
  }

  lemma SpelledCodesAfter18Ones()
    ensures Spelled(19, 0x7fffe, 16)
  {
    assert Spells(SymOf, CodesAfter18Ones, 19, 0x7fffe) && LeafCount(CodesAfter18Ones) == 16;
  }

  lemma SpelledCodesAfter19Ones()
    ensures Spelled(20, 0xffffe, 11)
  {
    assert Spells(SymOf, CodesAfter19Ones, 20, 0xffffe) && LeafCount(CodesAfter19Ones) == 11;
  }

  lemma SpelledCodesAfter20Ones()
    ensures Spelled(21, 0x1ffffe, 10)
  {
    assert Spells(SymOf, CodesAfter20Ones, 21, 0x1ffffe) && LeafCount(CodesAfter20Ones) == 10;
  }

  lemma SpelledCodesAfter21Ones()
    ensures Spelled(22, 0x3ffffe, 17)
  {
    assert Spells(SymOf, CodesAfter21Ones, 22, 0x3ffffe) && LeafCount(CodesAfter21Ones) == 17;
  }

  lemma SpelledCodesAfter22Ones()
    ensures Spelled(23, 0x7ffffe, 16)
  {
    assert Spells(SymOf, CodesAfter22Ones, 23, 0x7ffffe) && LeafCount(CodesAfter22Ones) == 16;
  }

  lemma SpelledCodesAfter23Ones()
    ensures Spelled(24, 0xfffffe, 15)
  {
    assert Spells(SymOf, CodesAfter23Ones, 24, 0xfffffe) && LeafCount(CodesAfter23Ones) == 15;
  }

  lemma SpelledCodesOf24Ones()
    ensures Spelled(24, 0xffffff, 19)
  {
    assert Spells(SymOf, CodesOf24Ones, 24, 0xffffff) && LeafCount(CodesOf24Ones) == 19;
  }

  lemma SpelledCodesOf15Ones()
    ensures Spelled(15, 0x7fff, 162)
  {
    SpelledCodesOf24Ones();
    SpelledCodesAfter23Ones();
    Join(23, 0x7fffff, 15, 19);
    SpelledCodesAfter22Ones();
    Join(22, 0x3fffff, 16, 34);
    SpelledCodesAfter21Ones();
    Join(21, 0x1fffff, 17, 50);
    SpelledCodesAfter20Ones();
    Join(20, 0xfffff, 10, 67);
    SpelledCodesAfter19Ones();
    Join(19, 0x7ffff, 11, 77);
    SpelledCodesAfter18Ones();
    Join(18, 0x3ffff, 16, 88);
    SpelledCodesAfter17Ones();
    Join(17, 0x1ffff, 20, 104);
    SpelledCodesAfter16Ones();
    Join(16, 0xffff, 23, 124);
    SpelledCodesAfter15Ones();
    Join(15, 0x7fff, 15, 147);
  }

  lemma SpelledCodesOf6Ones()
    ensures Spelled(6, 0x3f, 185)
  {
    SpelledCodesOf15Ones();
    SpelledCodesAfter12To14Ones();
    Join(14, 0x3fff, 1, 162);
    Join(13, 0x1fff, 2, 163);
    Join(12, 0xfff, 2, 165);
    SpelledCodesAfter10To11Ones();
    Join(11, 0x7ff, 2, 167);
    Join(10, 0x3ff, 4, 169);
    SpelledCodesAfter8To9Ones();
    Join(9, 0x1ff, 3, 173);
    Join(8, 0xff, 3, 176);
    SpelledCodesAfter6To7Ones();
    Join(7, 0x7f, 4, 179);
    Join(6, 0x3f, 2, 183);
  }

  lemma SpelledAllCodes()
    ensures Spelled(0, 0x0, 257)
  {
    SpelledCodesOf6Ones();
    SpelledCodesAfter4To5Ones();
    Join(5, 0x1f, 4, 185);
    Join(4, 0xf, 4, 189);
    SpelledCodesAfter3Ones();
    Join(3, 0x7, 8, 193);
    SpelledCodesAfter2Ones();
    Join(2, 0x3, 16, 201);
    SpelledCodesAfter1Ones();
    Join(1, 0x1, 18, 217);
    SpelledCodesAfter0Ones();
    Join(0, 0x0, 22, 235);
  }

  lemma SymbolTableHasTree()
    ensures exists t :: IsCodeTree(SymOf, t)
  {
    SpelledAllCodes();
    var t :| Spells(SymOf, t, 0, 0) && LeafCount(t) == 257;
    assert IsCodeTree(SymOf, t);
  }

  /**
   * The code tree of HPACK.  What is known of it is kept behind lemmas, so that
   * proofs about the tree do not unfold the 257 entries of the table.
   */
  ghost function CodeTree(): Tree
  {
    SomeTreeIsCertified();
    var t :| KnownGood(t);
    t
  }

  ghost predicate Certified(t: Tree, k: nat) { IsCodeTree(SymOf, t) }

  ghost predicate KnownGood(t: Tree) { forall k: nat :: Certified(t, k) }

  lemma SomeTreeIsCertified()
    ensures exists t :: KnownGood(t)
  {
    SymbolTableHasTree();
    var t :| IsCodeTree(SymOf, t);
    assert KnownGood(t);
  }

  lemma CodeTreeIsSource()
    ensures IsCodeTree(SymOf, CodeTree())
  {
    SomeTreeIsCertified();
    assert Certified(CodeTree(), 0);
  }

  lemma CodeTreeHasTable() returns (table: nat -> Sym)
    ensures IsCodeTree(table, CodeTree())
  {
    CodeTreeIsSource();
    table := SymOf;
  }

  ghost const Root: Tree := CodeTree()
}
