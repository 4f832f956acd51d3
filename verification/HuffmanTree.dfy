/**
 * Code trees and the four-bit decoding automaton generated from them
 * (mkhufftbl.py).  The reference decoder walks the tree one bit at a time and
 * remembers only the bits read since the last symbol.
 */
module HuffmanTree {
  import opened Bytes

  /** The symbol that must never be completed inside a string. */
  const EOS: nat := 256

  /** A complete prefix code: every inner node has both children. */
  datatype Tree = Leaf(sym: nat) | Node(left: Tree, right: Tree)

  predicate OnTree(t: Tree, p: Bits)
    decreases |p|
  {
    p == [] || (t.Node? && OnTree(if p[0] then t.right else t.left, p[1..]))
  }

  /** The node reached from the root of `t` along the path `p`. */
  function At(t: Tree, p: Bits): Tree
    requires OnTree(t, p)
    decreases |p|
  {
    if p == [] then t else At(if p[0] then t.right else t.left, p[1..])
  }

  /** `p` is a proper prefix of some code of `t`. */
  predicate Pending(t: Tree, p: Bits) { OnTree(t, p) && At(t, p).Node? }

  /** Every code of `t` has at least `k` bits. */
  predicate Deep(t: Tree, k: nat)
  {
    k == 0 || (t.Node? && Deep(t.left, k - 1) && Deep(t.right, k - 1))
  }

  /** Padding a decoder accepts: at most seven bits, all of them ones. */
  predicate Accepting(p: Bits) { |p| <= 7 && AllOnes(p) }

  lemma {:induction false} PendingStep(t: Tree, p: Bits, bit: bool)
    requires Pending(t, p)
    ensures OnTree(t, p + [bit])
    ensures At(t, p + [bit]) == (if bit then At(t, p).right else At(t, p).left)
    decreases |p|
  {
    if p != [] {
      PendingStep(if p[0] then t.right else t.left, p[1..], bit);
      assert (p + [bit])[1..] == p[1..] + [bit];
    }
  }

  // ---------------------------------------------------------------- bit walk

  /** Outcome of a walk: bits since the last symbol, symbols, EOS completed. */
  datatype Walk = Walk(rest: Bits, out: seq<nat>, eos: bool)

  function WalkBits(t: Tree, p: Bits, bits: Bits): (w: Walk)
    requires t.Node? && Pending(t, p)
    ensures Pending(t, w.rest)
    decreases |bits|
  {
    if bits == [] then Walk(p, [], false)
    else
      PendingStep(t, p, bits[0]);
      match At(t, p + [bits[0]])
      case Node(_, _) => WalkBits(t, p + [bits[0]], bits[1..])
      case Leaf(s) =>
        if s == EOS then Walk([], [], true)
        else
          var w := WalkBits(t, [], bits[1..]);
          w.(out := [s] + w.out)
  }

  /** Walking a concatenation is walking the parts one after the other. */
  function Then(t: Tree, w: Walk, bits: Bits): Walk
    requires t.Node? && Pending(t, w.rest)
  {
    if w.eos then w
    else
      var v := WalkBits(t, w.rest, bits);
      v.(out := w.out + v.out)
  }

  lemma {:induction false} WalkConcat(t: Tree, p: Bits, a: Bits, b: Bits)
    requires t.Node? && Pending(t, p)
    ensures WalkBits(t, p, a + b) == Then(t, WalkBits(t, p, a), b)
    decreases |a|
  {
    if a == [] {
      assert a + b == b;
    } else {
      PendingStep(t, p, a[0]);
      assert (a + b)[1..] == a[1..] + b;
      match At(t, p + [a[0]])
      case Node(_, _) => WalkConcat(t, p + [a[0]], a[1..], b);
      case Leaf(s) => if s != EOS { WalkConcat(t, [], a[1..], b); }
    }
  }

  /** Walking exactly the rest of a code emits its symbol. */
  lemma {:induction false} WalkCode(t: Tree, p: Bits, rest: Bits)
    requires t.Node? && Pending(t, p) && rest != []
    requires OnTree(t, p + rest) && At(t, p + rest).Leaf? && At(t, p + rest).sym != EOS
    ensures WalkBits(t, p, rest) == Walk([], [At(t, p + rest).sym], false)
    decreases |rest|
  {
    PendingStep(t, p, rest[0]);
    var q := p + [rest[0]];
    assert p + rest == q + rest[1..];
    AtConcat(t, q, rest[1..]);
    if rest[1..] == [] {
      assert p + rest == q;
    } else {
      WalkCode(t, q, rest[1..]);
    }
  }

  lemma {:induction false} AtConcat(t: Tree, p: Bits, q: Bits)
    requires OnTree(t, p + q)
    ensures OnTree(t, p) && OnTree(At(t, p), q) && At(t, p + q) == At(At(t, p), q)
    decreases |p|
  {
    if p == [] {
      assert p + q == q;
    } else {
      assert (p + q)[1..] == p[1..] + q;
      AtConcat(if p[0] then t.right else t.left, p[1..], q);
    }
  }

  /** Bits that stay inside the tree only lengthen the pending prefix. */
  lemma {:induction false} WalkPending(t: Tree, p: Bits, bits: Bits)
    requires t.Node? && Pending(t, p) && Pending(t, p + bits)
    ensures WalkBits(t, p, bits) == Walk(p + bits, [], false)
    decreases |bits|
  {
    if bits == [] {
      assert p + bits == p;
    } else {
      PendingStep(t, p, bits[0]);
      assert p + bits == (p + [bits[0]]) + bits[1..];
      AtConcat(t, p + [bits[0]], bits[1..]);
      WalkPending(t, p + [bits[0]], bits[1..]);
    }
  }

  lemma {:induction false} ShortIsPending(t: Tree, k: nat, bits: Bits)
    requires Deep(t, k) && |bits| < k
    ensures Pending(t, bits)
  {
    if bits != [] {
      ShortIsPending(if bits[0] then t.right else t.left, k - 1, bits[1..]);
    }
  }

  // ------------------------------------------------------------ tree building

  /** A node while the code tree is being filled in: parts may be missing. */
  datatype Draft = Draft(term: Option<nat>, left: Option<Draft>, right: Option<Draft>)

  const NewNode: Draft := Draft(None, None, None)

  /** Enters one code below `n`, creating missing nodes on the way. */
  function Add(n: Draft, sym: nat, bits: Bits): Draft
    decreases |bits|
  {
    if bits == [] then n.(term := Some(sym))
    else if bits[0] then n.(right := Some(Add(if n.right.None? then NewNode else n.right.value, sym, bits[1..])))
    else n.(left := Some(Add(if n.left.None? then NewNode else n.left.value, sym, bits[1..])))
  }

  function AddAll(n: Draft, codes: seq<(nat, Bits)>): Draft
    decreases |codes|
  {
    if codes == [] then n else AddAll(Add(n, codes[0].0, codes[0].1), codes[1..])
  }

  /** The finished tree as a draft with nothing missing. */
  function Finished(t: Tree): Draft
  {
    match t
    case Leaf(s) => Draft(Some(s), None, None)
    case Node(l, r) => Draft(None, Some(Finished(l)), Some(Finished(r)))
  }

  predicate HasCode(t: Tree, sym: nat, bits: Bits) { OnTree(t, bits) && At(t, bits) == Leaf(sym) }

  /** `n` contains nothing that `t` does not contain at the same place. */
  predicate PartOf(n: Draft, t: Tree)
    decreases t
  {
    match t
    case Leaf(s) => n.left.None? && n.right.None? && (n.term.None? || n.term == Some(s))
    case Node(l, r) =>
      && n.term.None?
      && (n.left.None? || PartOf(n.left.value, l))
      && (n.right.None? || PartOf(n.right.value, r))
  }

  /** A symbol has been entered at path `p`. */
  predicate Entered(n: Draft, p: Bits)
    decreases |p|
  {
    if p == [] then n.term.Some?
    else if p[0] then n.right.Some? && Entered(n.right.value, p[1..])
    else n.left.Some? && Entered(n.left.value, p[1..])
  }

  lemma {:induction false} AddKeepsPart(n: Draft, t: Tree, sym: nat, bits: Bits)
    requires PartOf(n, t) && HasCode(t, sym, bits)
    ensures PartOf(Add(n, sym, bits), t)
    decreases |bits|
  {
    if bits != [] {
      var c := if bits[0] then n.right else n.left;
      AddKeepsPart(if c.None? then NewNode else c.value, if bits[0] then t.right else t.left, sym, bits[1..]);
    }
  }

  lemma {:induction false} AddEnters(n: Draft, sym: nat, bits: Bits, p: Bits)
    requires Entered(n, p) || p == bits
    ensures Entered(Add(n, sym, bits), p)
    decreases |bits|
  {
    if bits != [] && p != [] && bits[0] == p[0] {
      var c := if bits[0] then n.right else n.left;
      AddEnters(if c.None? then NewNode else c.value, sym, bits[1..], p[1..]);
    }
  }

  lemma {:induction false} AddAllEnters(n: Draft, t: Tree, codes: seq<(nat, Bits)>)
    requires PartOf(n, t) && forall i | 0 <= i < |codes| :: HasCode(t, codes[i].0, codes[i].1)
    ensures PartOf(AddAll(n, codes), t)
    ensures forall p | Entered(n, p) :: Entered(AddAll(n, codes), p)
    ensures forall i | 0 <= i < |codes| :: Entered(AddAll(n, codes), codes[i].1)
    decreases |codes|
  {
    if codes != [] {
      var m := Add(n, codes[0].0, codes[0].1);
      AddKeepsPart(n, t, codes[0].0, codes[0].1);
      forall p | Entered(n, p) || p == codes[0].1 ensures Entered(m, p) {
        AddEnters(n, codes[0].0, codes[0].1, p);
      }
      AddAllEnters(m, t, codes[1..]);
      forall i | 0 <= i < |codes| ensures Entered(AddAll(n, codes), codes[i].1) {
        if i > 0 { assert codes[i] == codes[1..][i - 1]; }
      }
    }
  }

  /** A part of `t` in which every symbol of `t` was entered is all of `t`. */
  lemma {:induction false} FullPartIsFinished(n: Draft, t: Tree)
    requires PartOf(n, t)
    requires forall p | OnTree(t, p) && At(t, p).Leaf? :: Entered(n, p)
    ensures n == Finished(t)
    decreases t
  {
    match t
    case Leaf(s) =>
      assert OnTree(t, []) && At(t, []).Leaf?;
      assert Entered(n, []);
    case Node(l, r) =>
      FullChild(n, t, false);
      FullChild(n, t, true);
  }

  lemma {:induction false} FullChild(n: Draft, t: Tree, bit: bool)
    requires t.Node? && PartOf(n, t)
    requires forall p | OnTree(t, p) && At(t, p).Leaf? :: Entered(n, p)
    ensures (if bit then n.right else n.left) == Some(Finished(if bit then t.right else t.left))
    decreases t, 0
  {
    var u := if bit then t.right else t.left;
    var c := if bit then n.right else n.left;
    forall p | OnTree(u, p) && At(u, p).Leaf? ensures c.Some? && Entered(c.value, p) {
      var q := [bit] + p;
      assert q[1..] == p;
      assert OnTree(t, q) && At(t, q).Leaf?;
      assert Entered(n, q);
    }
    SomeLeaf(u);
    FullPartIsFinished(c.value, u);
  }

  lemma {:induction false} SomeLeaf(t: Tree)
    ensures exists p :: OnTree(t, p) && At(t, p).Leaf?
    decreases t
  {
    match t
    case Leaf(_) => assert OnTree(t, []) && At(t, []).Leaf?;
    case Node(l, _) =>
      SomeLeaf(l);
      var p :| OnTree(l, p) && At(l, p).Leaf?;
      assert ([false] + p)[1..] == p;
      assert OnTree(t, [false] + p) && At(t, [false] + p).Leaf?;
  }

  /** Entering the codes of a complete tree, in any order, builds that tree. */
  lemma BuildGivesTree(t: Tree, codes: seq<(nat, Bits)>)
    requires forall i | 0 <= i < |codes| :: HasCode(t, codes[i].0, codes[i].1)
    requires forall p | OnTree(t, p) && At(t, p).Leaf? :: exists i :: 0 <= i < |codes| && codes[i].1 == p
    ensures AddAll(NewNode, codes) == Finished(t)
  {
    assert PartOf(NewNode, t);
    AddAllEnters(NewNode, t, codes);
    FullPartIsFinished(AddAll(NewNode, codes), t);
  }

  // --------------------------------------------------------------- generator

  /** A tree whose inner nodes carry the number and flag the generator gives them. */
  datatype Numbered =
    | Term(term: nat)
    | Inner(id: nat, accept: bool, left: Numbered, right: Numbered)

  /** Numbers inner nodes in preorder; yields the next free number as well. */
  function SetNodeId(t: Tree, prefix: Bits, next: nat): (Numbered, nat)
  {
    match t
    case Leaf(s) => (Term(s), next)
    case Node(l, r) =>
      var (nl, n1) := SetNodeId(l, prefix + [false], next + 1);
      var (nr, n2) := SetNodeId(r, prefix + [true], n1);
      (Inner(next, Accepting(prefix), nl, nr), n2)
  }

  /** Where `left` more bits can lead, in the order of the bits read as a number. */
  function Traverse(node: Numbered, sym: Option<nat>, root: Numbered, left: nat)
    : (r: seq<(Option<Numbered>, Option<nat>)>)
    requires root.Inner?
    ensures |r| == Pow2(left)
    decreases left
  {
    if left == 0 then
      [if sym == Some(EOS) then (None, None) else (Some(node), sym)]
    else
      var n := if node.Term? then root else node;
      Traverse(n.left, Completed(n.left, sym), root, left - 1) +
      Traverse(n.right, Completed(n.right, sym), root, left - 1)
  }

  function Completed(node: Numbered, sym: Option<nat>): Option<nat>
  {
    if node.Term? then Some(node.term) else sym
  }

  /** The generator's own assertion: no second symbol within one traversal. */
  predicate OneSymbol(node: Numbered, sym: Option<nat>, root: Numbered, left: nat)
    requires root.Inner?
    decreases left
  {
    left == 0 ||
    var n := if node.Term? then root else node;
    (n.left.Term? ==> sym.None?) && (n.right.Term? ==> sym.None?) &&
    OneSymbol(n.left, Completed(n.left, sym), root, left - 1) &&
    OneSymbol(n.right, Completed(n.right, sym), root, left - 1)
  }

  /** One cell of the decoding table; the flags are ACCEPTED, SYM and FAIL. */
  datatype Cell = Cell(state: nat, accepted: bool, emit: bool, fail: bool, sym: nat)

  function PrintCell(node: Option<Numbered>, sym: Option<nat>): Cell
  {
    var out := if sym.None? then 0 else sym.value;
    match node
    case None => Cell(0, false, sym.Some?, true, out)
    case Some(Term(_)) => Cell(0, true, sym.Some?, false, out)
    case Some(Inner(id, accept, _, _)) => Cell(id, accept, sym.Some?, false, out)
  }

  function Row(node: Numbered, root: Numbered): (r: seq<Cell>)
    requires root.Inner?
    ensures |r| == 16
  {
    var trans := Traverse(node, None, root, 4);
    assert Pow2(4) == 16;
    seq(16, i requires 0 <= i < 16 => PrintCell(trans[i].0, trans[i].1))
  }

  /** The inner nodes in the order in which their rows are printed. */
  function Preorder(node: Numbered): seq<Numbered>
  {
    match node
    case Term(_) => []
    case Inner(_, _, l, r) => [node] + Preorder(l) + Preorder(r)
  }

  function Numbering(t: Tree): (r: Numbered)
    requires t.Node?
    ensures r.Inner?
  {
    SetNodeId(t, [], 0).0
  }

  /** The whole decoding table of a code tree. */
  function Table(t: Tree): seq<seq<Cell>>
    requires t.Node?
  {
    var nodes := Preorder(Numbering(t));
    seq(|nodes|, i requires 0 <= i < |nodes| => Row(nodes[i], Numbering(t)))
  }

  // ------------------------------------------- numbering and rows agree

  function InnerCount(t: Tree): nat
  {
    match t
    case Leaf(_) => 0
    case Node(l, r) => 1 + InnerCount(l) + InnerCount(r)
  }

  /** Preorder position of the inner node at path `p`. */
  function StateOf(t: Tree, p: Bits): (n: nat)
    requires Pending(t, p)
    ensures n < InnerCount(t)
    decreases |p|
  {
    if p == [] then 0
    else if p[0] then 1 + InnerCount(t.left) + StateOf(t.right, p[1..])
    else 1 + StateOf(t.left, p[1..])
  }

  function NumberedAt(n: Numbered, t: Tree, p: Bits): Numbered
    requires Mirrors(n, t) && OnTree(t, p)
    decreases |p|
  {
    if p == [] then n
    else NumberedAt(if p[0] then n.right else n.left, if p[0] then t.right else t.left, p[1..])
  }

  /** `n` has the shape and the symbols of `t`. */
  predicate Mirrors(n: Numbered, t: Tree)
    decreases t
  {
    match t
    case Leaf(s) => n == Term(s)
    case Node(l, r) => n.Inner? && Mirrors(n.left, l) && Mirrors(n.right, r)
  }

  lemma {:induction false} NumberingMirrors(t: Tree, prefix: Bits, next: nat)
    ensures Mirrors(SetNodeId(t, prefix, next).0, t)
    ensures SetNodeId(t, prefix, next).1 == next + InnerCount(t)
    decreases t
  {
    match t
    case Leaf(_) =>
    case Node(l, r) =>
      NumberingMirrors(l, prefix + [false], next + 1);
      NumberingMirrors(r, prefix + [true], next + 1 + InnerCount(l));
  }

  lemma {:induction false} NumberedAtShape(n: Numbered, t: Tree, p: Bits)
    requires Mirrors(n, t) && OnTree(t, p)
    ensures Mirrors(NumberedAt(n, t, p), At(t, p))
    decreases |p|
  {
    if p != [] {
      NumberedAtShape(if p[0] then n.right else n.left, if p[0] then t.right else t.left, p[1..]);
    }
  }

  lemma {:induction false} NumberAndFlag(t: Tree, prefix: Bits, next: nat, p: Bits)
    requires Pending(t, p)
    ensures Mirrors(SetNodeId(t, prefix, next).0, t)
    ensures
      var n := NumberedAt(SetNodeId(t, prefix, next).0, t, p);
      n.Inner? && n.id == next + StateOf(t, p) && n.accept == Accepting(prefix + p)
    decreases |p|
  {
    NumberingMirrors(t, prefix, next);
    if p == [] {
      assert prefix + p == prefix;
    } else if p[0] {
      NumberingMirrors(t.left, prefix + [false], next + 1);
      NumberAndFlag(t.right, prefix + [true], next + 1 + InnerCount(t.left), p[1..]);
      assert (prefix + [true]) + p[1..] == prefix + p;
    } else {
      NumberAndFlag(t.left, prefix + [false], next + 1, p[1..]);
      assert (prefix + [false]) + p[1..] == prefix + p;
    }
  }

  lemma {:induction false} PreorderAt(n: Numbered, t: Tree, p: Bits)
    requires Mirrors(n, t) && Pending(t, p)
    ensures |Preorder(n)| == InnerCount(t)
    ensures Preorder(n)[StateOf(t, p)] == NumberedAt(n, t, p)
    decreases |p|
  {
    PreorderCount(n, t);
    if p != [] {
      PreorderCount(n.left, t.left);
      if p[0] {
        PreorderAt(n.right, t.right, p[1..]);
      } else {
        PreorderAt(n.left, t.left, p[1..]);
      }
    }
  }

  lemma {:induction false} PreorderCount(n: Numbered, t: Tree)
    requires Mirrors(n, t)
    ensures |Preorder(n)| == InnerCount(t)
    decreases t
  {
    if t.Node? {
      PreorderCount(n.left, t.left);
      PreorderCount(n.right, t.right);
    }
  }

  // ------------------------------------------------- traversal is a walk

  /** The single path of a traversal selected by `bits`. */
  function Follow(node: Numbered, sym: Option<nat>, root: Numbered, bits: Bits): (Numbered, Option<nat>)
    requires root.Inner?
    decreases |bits|
  {
    if bits == [] then (node, sym)
    else
      var n := if node.Term? then root else node;
      var c := if bits[0] then n.right else n.left;
      Follow(c, Completed(c, sym), root, bits[1..])
  }

  lemma {:induction false} ValueFront(b: Bits)
    requires b != []
    ensures Value(b) == (if b[0] then Pow2(|b| - 1) else 0) + Value(b[1..])
  {
    if |b| > 1 {
      var c := b[..|b| - 1];
      ValueFront(c);
      assert c[1..] == b[1..][..|b| - 2];
      assert b[1..][|b| - 2] == b[|b| - 1];
    }
  }

  lemma {:induction false} TraverseSelects(node: Numbered, sym: Option<nat>, root: Numbered, bits: Bits)
    requires root.Inner?
    ensures
      var (n, s) := Follow(node, sym, root, bits);
      Traverse(node, sym, root, |bits|)[Value(bits)] ==
        (if s == Some(EOS) then (None, None) else (Some(n), s))
    decreases |bits|
  {
    if bits != [] {
      var n := if node.Term? then root else node;
      var c := if bits[0] then n.right else n.left;
      TraverseSelects(c, Completed(c, sym), root, bits[1..]);
      ValueFront(bits);
      var lower := Traverse(n.left, Completed(n.left, sym), root, |bits| - 1);
      var upper := Traverse(n.right, Completed(n.right, sym), root, |bits| - 1);
      var k := Value(bits[1..]);
      assert Traverse(node, sym, root, |bits|) == lower + upper;
      HalfSelected(lower, upper, k);
    }
  }

  lemma HalfSelected<T>(lower: seq<T>, upper: seq<T>, k: nat)
    ensures k < |upper| ==> (lower + upper)[|lower| + k] == upper[k]
    ensures k < |lower| ==> (lower + upper)[k] == lower[k]
  {}

  /** Too few bits to complete another symbol: the traversal only descends. */
  lemma {:induction false} FollowPending(t: Tree, p: Bits, sym: Option<nat>, bits: Bits)
    requires t.Node? && Pending(t, p) && Pending(t, p + bits)
    ensures Mirrors(Numbering(t), t)
    ensures
      var r := Numbering(t);
      Follow(NumberedAt(r, t, p), sym, r, bits) == (NumberedAt(r, t, p + bits), sym)
    decreases |bits|
  {
    var r := Numbering(t);
    NumberingMirrors(t, [], 0);
    NumberedAtShape(r, t, p);
    if bits == [] {
      assert p + bits == p;
    } else {
      var q := p + [bits[0]];
      PendingStep(t, p, bits[0]);
      NumberedStep(r, t, p, bits[0]);
      assert p + bits == q + bits[1..];
      AtConcat(t, q, bits[1..]);
      NumberedAtShape(r, t, q);
      FollowPending(t, q, sym, bits[1..]);
    }
  }

  lemma {:induction false} NumberedStep(n: Numbered, t: Tree, p: Bits, bit: bool)
    requires Mirrors(n, t) && Pending(t, p)
    ensures OnTree(t, p + [bit]) && NumberedAt(n, t, p).Inner?
    ensures NumberedAt(n, t, p + [bit]) ==
      (if bit then NumberedAt(n, t, p).right else NumberedAt(n, t, p).left)
    decreases |p|
  {
    PendingStep(t, p, bit);
    NumberedAtShape(n, t, p);
    if p != [] {
      NumberedStep(if p[0] then n.right else n.left, if p[0] then t.right else t.left, p[1..], bit);
      assert (p + [bit])[1..] == p[1..] + [bit];
    }
  }

  /** What a traversal path means in terms of the bit walk. */
  ghost predicate Agrees(t: Tree, w: Walk, end: (Numbered, Option<nat>))
    requires t.Node? && Pending(t, w.rest) && Mirrors(Numbering(t), t)
  {
    if w.eos then end.1 == Some(EOS) && w.out == []
    else
      && end.1 != Some(EOS)
      && w.out == (if end.1.None? then [] else [end.1.value])
      && (if end.0.Term? then w.rest == [] else end.0 == NumberedAt(Numbering(t), t, w.rest))
  }

  lemma {:induction false} FollowIsWalk(t: Tree, p: Bits, bits: Bits)
    requires t.Node? && Deep(t, 4) && Pending(t, p) && |bits| <= 4
    ensures Mirrors(Numbering(t), t)
    ensures Agrees(t, WalkBits(t, p, bits), Follow(NumberedAt(Numbering(t), t, p), None, Numbering(t), bits))
    decreases |bits|
  {
    var r := Numbering(t);
    NumberingMirrors(t, [], 0);
    NumberedAtShape(r, t, p);
    if bits != [] {
      var q := p + [bits[0]];
      PendingStep(t, p, bits[0]);
      NumberedStep(r, t, p, bits[0]);
      NumberedAtShape(r, t, q);
      match At(t, q)
      case Node(_, _) =>
        FollowIsWalk(t, q, bits[1..]);
      case Leaf(s) =>
        FollowAfterSymbol(t, s, bits[1..]);
        NumberedAtShape(r, t, bits[1..]);
    }
  }

  /** After a symbol the walk restarts at the root and at most three bits are left. */
  lemma {:induction false} FollowAfterSymbol(t: Tree, s: nat, bits: Bits)
    requires t.Node? && Deep(t, 4) && |bits| <= 3
    ensures WalkBits(t, [], bits) == Walk(bits, [], false)
    ensures Mirrors(Numbering(t), t) && Pending(t, bits)
    ensures
      Follow(Term(s), Some(s), Numbering(t), bits) ==
        (if bits == [] then (Term(s), Some(s)) else (NumberedAt(Numbering(t), t, bits), Some(s)))
  {
    var r := Numbering(t);
    ShortIsPending(t, 4, bits);
    assert [] + bits == bits;
    WalkPending(t, [], bits);
    NumberingMirrors(t, [], 0);
    if bits != [] {
      FollowPending(t, [], Some(s), bits);
      assert NumberedAt(r, t, []) == r;
    }
  }

  // ------------------------------------------------------------ main results

  lemma RowInTable(t: Tree, p: Bits)
    requires t.Node? && Pending(t, p)
    ensures StateOf(t, p) < |Table(t)| && |Table(t)[StateOf(t, p)]| == 16
  {
    NumberingMirrors(t, [], 0);
    PreorderAt(Numbering(t), t, p);
  }

  /** The cell of the table for the pending prefix `p` and the nibble `n`. */
  function CellAt(t: Tree, p: Bits, n: nat): Cell
    requires t.Node? && Pending(t, p) && n < 16
  {
    RowInTable(t, p);
    Table(t)[StateOf(t, p)][n]
  }

  lemma CellIsTraversal(t: Tree, p: Bits, n: nat)
    requires t.Node? && Pending(t, p) && n < 16
    ensures Mirrors(Numbering(t), t)
    ensures
      var (end, s) := Follow(NumberedAt(Numbering(t), t, p), None, Numbering(t), BitsOf(4, n));
      CellAt(t, p, n) == if s == Some(EOS) then PrintCell(None, None) else PrintCell(Some(end), s)
  {
    var r := Numbering(t);
    NumberingMirrors(t, [], 0);
    PreorderAt(r, t, p);
    TraverseSelects(NumberedAt(r, t, p), None, r, BitsOf(4, n));
    assert Pow2(4) == 16;
    ValueOfBitsOf(4, n);
  }

  /**
   * The generated table decodes four bits exactly as the bit walk does: it fails
   * iff EOS completes (and emits nothing then), emits exactly the walk's symbols (at most one), moves to the
   * number of the walk's pending prefix and accepts iff that prefix is padding.
   */
  lemma TableIsWalk(t: Tree, p: Bits, n: nat)
    requires t.Node? && Deep(t, 4) && Pending(t, p) && n < 16
    ensures
      var c := CellAt(t, p, n);
      var w := WalkBits(t, p, BitsOf(4, n));
      && c.fail == w.eos
      && (c.fail ==> w.out == [])
      && (!c.fail ==>
            && c.state == StateOf(t, w.rest)
            && c.accepted == Accepting(w.rest)
            && w.out == (if c.emit then [c.sym] else []))
  {
    var w := WalkBits(t, p, BitsOf(4, n));
    CellIsTraversal(t, p, n);
    FollowIsWalk(t, p, BitsOf(4, n));
    NumberAndFlag(t, [], 0, w.rest);
    assert [] + w.rest == w.rest;
  }

  /** The generator's assertion never fires for codes of four bits or more. */
  lemma {:induction false} AtMostOneSymbol(t: Tree, p: Bits, k: nat)
    requires t.Node? && Deep(t, 4) && Pending(t, p) && k <= 4
    ensures Mirrors(Numbering(t), t)
    ensures OneSymbol(NumberedAt(Numbering(t), t, p), None, Numbering(t), k)
    decreases k
  {
    var r := Numbering(t);
    NumberingMirrors(t, [], 0);
    NumberedAtShape(r, t, p);
    if k > 0 {
      AtMostOneBelow(t, p, false, k);
      AtMostOneBelow(t, p, true, k);
    }
  }

  lemma {:induction false} AtMostOneBelow(t: Tree, p: Bits, bit: bool, k: nat)
    requires t.Node? && Deep(t, 4) && Pending(t, p) && 0 < k <= 4
    ensures Mirrors(Numbering(t), t) && NumberedAt(Numbering(t), t, p).Inner?
    ensures
      var n := NumberedAt(Numbering(t), t, p);
      var c := if bit then n.right else n.left;
      OneSymbol(c, Completed(c, None), Numbering(t), k - 1)
    decreases k, 0
  {
    var r := Numbering(t);
    NumberingMirrors(t, [], 0);
    NumberedStep(r, t, p, bit);
    PendingStep(t, p, bit);
    NumberedAtShape(r, t, p + [bit]);
    match At(t, p + [bit])
    case Node(_, _) => AtMostOneSymbol(t, p + [bit], k - 1);
    case Leaf(s) =>
      if k > 1 {
        OneSymbolFromRoot(t, r, t, 4, Some(s), k - 1);
        assert OneSymbol(Term(s), Some(s), r, k - 1) == OneSymbol(r, Some(s), r, k - 1);
      }
  }

  lemma {:induction false} OneSymbolFromRoot(t: Tree, n: Numbered, u: Tree, depth: nat, sym: Option<nat>, k: nat)
    requires t.Node? && Mirrors(n, u) && Deep(u, depth) && k < depth
    ensures OneSymbol(n, sym, Numbering(t), k)
    decreases k
  {
    if k > 0 {
      OneSymbolFromRoot(t, n.left, u.left, depth - 1, sym, k - 1);
      OneSymbolFromRoot(t, n.right, u.right, depth - 1, sym, k - 1);
    }
  }
}
