/**
 * The dependency tree as it is linked (lib/nghttp2_stream.c): every stream points to
 * its parent, its first child and its neighbours among its siblings.
 */
module StreamLinks {
  import opened Bytes
  import opened StreamSchedule

  datatype Link = Link(depPrev: Option<Id>, depNext: Option<Id>, sibPrev: Option<Id>, sibNext: Option<Id>)

  const Unlinked: Link := Link(None, None, None, None)

  type Links = map<Id, Link>

  /** The children of each stream, first child first. */
  type Kids = map<Id, seq<Id>>

  function Head(k: seq<Id>): Option<Id> { if k == [] then None else Some(k[0]) }

  function Before(k: seq<Id>, i: nat): Option<Id>
    requires i < |k|
  {
    if i == 0 then None else Some(k[i - 1])
  }

  function Behind(k: seq<Id>, i: nat): Option<Id>
    requires i < |k|
  {
    if i == |k| - 1 then None else Some(k[i + 1])
  }

  /** The link of the `i`-th of the children `k` of `p`. */
  predicate ChildLink(l: Links, p: Id, k: seq<Id>, i: nat)
    requires i < |k|
  {
    && k[i] in l && l[k[i]].depPrev == Some(p)
    && l[k[i]].sibPrev == Before(k, i) && l[k[i]].sibNext == Behind(k, i)
  }

  /** The links lead from `p` through exactly its children `k`, and back. */
  predicate ChildList(l: Links, p: Id, k: seq<Id>)
  {
    && p in l && Distinct(k) && l[p].depNext == Head(k)
    && forall i | 0 <= i < |k| :: ChildLink(l, p, k, i)
  }

  /** A stream without parent has no siblings; the others are children of their parent. */
  predicate KnownToParent(l: Links, kids: Kids, c: Id)
    requires c in l
  {
    match l[c].depPrev
    case None => l[c].sibPrev.None? && l[c].sibNext.None?
    case Some(p) => p in kids && c in kids[p]
  }

  ghost predicate Shaped(l: Links, kids: Kids)
  {
    && kids.Keys == l.Keys
    && (forall p {:trigger ChildList(l, p, kids[p])} | p in l :: ChildList(l, p, kids[p]))
    && (forall c {:trigger KnownToParent(l, kids, c)} | c in l :: KnownToParent(l, kids, c))
  }

  function ParentsOf(l: Links): Parents { map x | x in l :: l[x].depPrev }

  /** The members of links that a list of children reads are the same. */
  predicate ListUntouched(l: Links, m: Links, p: Id, k: seq<Id>)
    requires p in l
  {
    && p in m && m[p].depNext == l[p].depNext
    && forall i | 0 <= i < |k| :: k[i] in l ==>
         k[i] in m && m[k[i]].(depNext := None) == l[k[i]].(depNext := None)
  }

  lemma UntouchedList(l: Links, m: Links, p: Id, k: seq<Id>)
    requires ChildList(l, p, k) && ListUntouched(l, m, p, k)
    ensures ChildList(m, p, k)
  {
    forall i | 0 <= i < |k| ensures ChildLink(m, p, k, i) { assert ChildLink(l, p, k, i); }
  }

  lemma ChildOf(l: Links, kids: Kids, p: Id, c: Id)
    requires Shaped(l, kids) && p in l && c in kids[p]
    ensures c in l && l[c].depPrev == Some(p)
  {
    assert ChildList(l, p, kids[p]);
    assert ChildLink(l, p, kids[p], IndexOf(kids[p], c));
  }

  // ----------------------------------------------------------------- linking functions

  /** link_dep: makes `s` the first child of `dep`. */
  function LinkDep(l: Links, dep: Id, s: Option<Id>): Links
    requires dep in l && (s.Some? ==> s.value in l)
  {
    var m := l[dep := l[dep].(depNext := s)];
    if s.None? then m else m[s.value := m[s.value].(depPrev := Some(dep))]
  }

  /** link_sib: makes `b` the sibling behind `a`. */
  function LinkSib(l: Links, a: Id, b: Option<Id>): Links
    requires a in l && (b.Some? ==> b.value in l)
  {
    var m := l[a := l[a].(sibNext := b)];
    if b.None? then m else m[b.value := m[b.value].(sibPrev := Some(a))]
  }

  /** The link part of nghttp2_stream_dep_add and nghttp2_stream_dep_add_subtree. */
  function LinkFirst(l: Links, dep: Id, s: Id): Links
    requires dep in l && s in l && (l[dep].depNext.Some? ==> l[dep].depNext.value in l)
  {
    if l[dep].depNext.Some? then LinkDep(LinkSib(l, s, l[dep].depNext), dep, Some(s)) else LinkDep(l, dep, Some(s))
  }

  // ------------------------------------------------------------------------ adding

  function Added(kids: Kids, dep: Id, s: Id): Kids
    requires dep in kids
  {
    kids[dep := [s] + kids[dep]]
  }

  /** `m` is `l` with `s` in front of the children of `dep`, link by link. */
  predicate AddedLinks(l: Links, m: Links, dep: Id, s: Id)
    requires dep in l
  {
    m.Keys == l.Keys &&
    forall x | x in l ::
      m[x] == Link(
        if x == s then Some(dep) else l[x].depPrev,
        if x == dep then Some(s) else l[x].depNext,
        if l[dep].depNext == Some(x) then Some(s) else l[x].sibPrev,
        if x == s then l[dep].depNext else l[x].sibNext)
  }

  lemma FirstChild(l: Links, kids: Kids, dep: Id)
    requires Shaped(l, kids) && dep in l
    ensures l[dep].depNext == Head(kids[dep])
    ensures l[dep].depNext.Some? ==> l[dep].depNext.value in l && l[l[dep].depNext.value].depPrev == Some(dep)
  {
    assert ChildList(l, dep, kids[dep]);
    if kids[dep] != [] { assert ChildLink(l, dep, kids[dep], 0); }
  }

  lemma LinkFirstAdds(l: Links, kids: Kids, dep: Id, s: Id)
    requires Shaped(l, kids) && dep in l && s in l && dep != s && l[s].depPrev.None?
    ensures (l[dep].depNext.Some? ==> l[dep].depNext.value in l) && AddedLinks(l, LinkFirst(l, dep, s), dep, s)
  {
    FirstChild(l, kids, dep);
    assert KnownToParent(l, kids, s);
  }

  lemma AddList(l: Links, m: Links, kids: Kids, dep: Id, s: Id)
    requires Shaped(l, kids) && dep in l && s in l && dep != s && l[s].depPrev.None? && AddedLinks(l, m, dep, s)
    ensures ChildList(m, dep, [s] + kids[dep])
  {
    var k := kids[dep];
    var r := [s] + k;
    assert ChildList(l, dep, k) && KnownToParent(l, kids, s);
    forall i | 0 <= i < |k| ensures k[i] != s { assert ChildLink(l, dep, k, i); }
    forall i | 0 <= i < |r| ensures ChildLink(m, dep, r, i) {
      if i > 0 { assert ChildLink(l, dep, k, i - 1); }
    }
  }

  lemma AddElsewhere(l: Links, m: Links, kids: Kids, dep: Id, s: Id, p: Id)
    requires Shaped(l, kids) && dep in l && s in l && dep != s && l[s].depPrev.None? && p in l && p != dep
    requires AddedLinks(l, m, dep, s)
    ensures ChildList(m, p, kids[p])
  {
    assert ChildList(l, p, kids[p]);
    FirstChild(l, kids, dep);
    forall i | 0 <= i < |kids[p]| ensures kids[p][i] != s && l[dep].depNext != Some(kids[p][i]) {
      assert ChildLink(l, p, kids[p], i);
    }
    UntouchedList(l, m, p, kids[p]);
  }

  lemma AddParents(l: Links, m: Links, kids: Kids, dep: Id, s: Id, c: Id)
    requires Shaped(l, kids) && dep in l && s in l && dep != s && l[s].depPrev.None? && c in l && AddedLinks(l, m, dep, s)
    ensures KnownToParent(m, Added(kids, dep, s), c)
  {
    assert KnownToParent(l, kids, c);
    FirstChild(l, kids, dep);
  }

  /** Linking `s` in front keeps the tree in shape and changes the parent of `s` alone. */
  lemma AddShape(l: Links, m: Links, kids: Kids, dep: Id, s: Id)
    requires Shaped(l, kids) && dep in l && s in l && dep != s && l[s].depPrev.None? && AddedLinks(l, m, dep, s)
    ensures Shaped(m, Added(kids, dep, s))
  {
    var after := Added(kids, dep, s);
    forall p | p in m ensures ChildList(m, p, after[p]) {
      if p == dep { AddList(l, m, kids, dep, s); } else { AddElsewhere(l, m, kids, dep, s, p); }
    }
    forall c | c in m ensures KnownToParent(m, after, c) { AddParents(l, m, kids, dep, s, c); }
  }

  lemma AddParentMap(l: Links, m: Links, dep: Id, s: Id)
    requires dep in l && s in l && AddedLinks(l, m, dep, s)
    ensures ParentsOf(m) == ParentsOf(l)[s := Some(dep)]
  {}

  // ------------------------------------------------------- inserting above the children

  /** All children of `dep` follow those of `s`, and `s` is the only child of `dep`. */
  function InsertedAbove(kids: Kids, dep: Id, s: Id): Kids
    requires dep in kids && s in kids
  {
    kids[s := kids[s] + kids[dep]][dep := [s]]
  }

  predicate InsertedLinks(l: Links, m: Links, dep: Id, s: Id, mine: seq<Id>, theirs: seq<Id>)
  {
    m.Keys == l.Keys &&
    forall x | x in l ::
      m[x] == Link(
        if x == s then Some(dep) else if x in theirs then Some(s) else l[x].depPrev,
        if x == dep then Some(s) else if x == s && mine == [] then Head(theirs) else l[x].depNext,
        if mine != [] && theirs != [] && x == theirs[0] then Some(mine[|mine| - 1]) else l[x].sibPrev,
        if mine != [] && theirs != [] && x == mine[|mine| - 1] then Some(theirs[0]) else l[x].sibNext)
  }

  /** Children of different streams are different streams. */
  lemma KidsApart(l: Links, kids: Kids, p: Id, q: Id)
    requires Shaped(l, kids) && p in l && q in l && p != q
    ensures forall x | x in kids[p] :: x !in kids[q]
  {
    forall x | x in kids[p] ensures x !in kids[q] {
      ChildOf(l, kids, p, x);
      if x in kids[q] { ChildOf(l, kids, q, x); }
    }
  }

  lemma InsertList(l: Links, m: Links, kids: Kids, dep: Id, s: Id)
    requires Shaped(l, kids) && dep in l && s in l && dep != s && l[s].depPrev.None?
    requires InsertedLinks(l, m, dep, s, kids[s], kids[dep])
    ensures ChildList(m, s, kids[s] + kids[dep])
  {
    var a, b := kids[s], kids[dep];
    assert ChildList(l, s, a) && ChildList(l, dep, b);
    KidsApart(l, kids, s, dep);
    DistinctConcat(a, b);
    forall i | 0 <= i < |a + b| ensures ChildLink(m, s, a + b, i) {
      if i < |a| {
        NotAmongKids(l, kids, s, s, a[i]);
        InsertMine(l, m, dep, s, a, b, i);
      } else {
        NotAmongKids(l, kids, dep, s, b[i - |a|]);
        InsertTheirs(l, m, dep, s, a, b, i - |a|);
      }
    }
  }

  /** A stream without parent is nobody's child. */
  lemma NotAmongKids(l: Links, kids: Kids, p: Id, s: Id, x: Id)
    requires Shaped(l, kids) && p in l && s in l && l[s].depPrev.None? && x in kids[p]
    ensures x != s
  {
    ChildOf(l, kids, p, x);
  }

  lemma DistinctConcat(a: seq<Id>, b: seq<Id>)
    requires Distinct(a) && Distinct(b) && forall x | x in a :: x !in b
    ensures Distinct(a + b)
  {
    forall i, j | 0 <= i < j < |a + b| ensures (a + b)[i] != (a + b)[j] {
      if i < |a| <= j { assert a[i] in a && b[j - |a|] in b; }
    }
  }

  lemma InsertMine(l: Links, m: Links, dep: Id, s: Id, a: seq<Id>, b: seq<Id>, i: nat)
    requires InsertedLinks(l, m, dep, s, a, b) && ChildList(l, s, a) && i < |a| && a[i] != s
    requires forall x | x in a :: x !in b
    ensures ChildLink(m, s, a + b, i)
  {
    assert ChildLink(l, s, a, i);
    assert a[i] in a;
  }

  lemma InsertTheirs(l: Links, m: Links, dep: Id, s: Id, a: seq<Id>, b: seq<Id>, i: nat)
    requires InsertedLinks(l, m, dep, s, a, b) && ChildList(l, dep, b) && i < |b| && b[i] != s
    requires forall x | x in a :: x !in b
    ensures ChildLink(m, s, a + b, |a| + i)
  {
    assert ChildLink(l, dep, b, i);
    assert b[i] in b;
    if a != [] { assert a[|a| - 1] in a; }
  }

  lemma InsertElsewhere(l: Links, m: Links, kids: Kids, dep: Id, s: Id, p: Id)
    requires Shaped(l, kids) && dep in l && s in l && dep != s && l[s].depPrev.None? && p in l && p != dep && p != s
    requires InsertedLinks(l, m, dep, s, kids[s], kids[dep])
    ensures ChildList(m, p, kids[p])
  {
    var k := kids[p];
    assert ChildList(l, p, k);
    KidsApart(l, kids, p, dep);
    KidsApart(l, kids, p, s);
    forall i | 0 <= i < |k| ensures k[i] in k && k[i] != s { assert ChildLink(l, p, k, i); }
    if kids[s] != [] { assert kids[s][|kids[s]| - 1] in kids[s]; }
    UntouchedList(l, m, p, k);
  }

  lemma InsertParents(l: Links, m: Links, kids: Kids, dep: Id, s: Id, c: Id)
    requires Shaped(l, kids) && dep in l && s in l && dep != s && l[s].depPrev.None? && c in l
    requires InsertedLinks(l, m, dep, s, kids[s], kids[dep])
    ensures KnownToParent(m, InsertedAbove(kids, dep, s), c)
  {
    assert KnownToParent(l, kids, c);
    if c in kids[dep] { ChildOf(l, kids, dep, c); }
    if c in kids[s] { ChildOf(l, kids, s, c); }
    if kids[s] != [] { assert kids[s][|kids[s]| - 1] in kids[s]; ChildOf(l, kids, s, kids[s][|kids[s]| - 1]); }
  }

  /** The parents after `s` came between `dep` and its children. */
  function ParentsInserted(par: Parents, kids: seq<Id>, dep: Id, s: Id): Parents
  {
    map x | x in par :: if x == s then Some(dep) else if x in kids then Some(s) else par[x]
  }

  lemma InsertParentMap(l: Links, m: Links, kids: Kids, dep: Id, s: Id)
    requires Shaped(l, kids) && dep in l && s in l && InsertedLinks(l, m, dep, s, kids[s], kids[dep])
    ensures ParentsOf(m) == ParentsInserted(ParentsOf(l), kids[dep], dep, s)
  {}

  /** Inserting `s` above the children of `dep` keeps the tree in shape. */
  lemma InsertShape(l: Links, m: Links, kids: Kids, dep: Id, s: Id)
    requires Shaped(l, kids) && dep in l && s in l && dep != s && l[s].depPrev.None?
    requires InsertedLinks(l, m, dep, s, kids[s], kids[dep])
    ensures Shaped(m, InsertedAbove(kids, dep, s))
  {
    var after := InsertedAbove(kids, dep, s);
    forall p | p in m ensures ChildList(m, p, after[p]) { InsertLists(l, m, kids, dep, s, p); }
    forall c | c in m ensures KnownToParent(m, after, c) { InsertParents(l, m, kids, dep, s, c); }
  }

  lemma InsertLists(l: Links, m: Links, kids: Kids, dep: Id, s: Id, p: Id)
    requires Shaped(l, kids) && dep in l && s in l && dep != s && l[s].depPrev.None? && p in l
    requires InsertedLinks(l, m, dep, s, kids[s], kids[dep])
    ensures ChildList(m, p, InsertedAbove(kids, dep, s)[p])
  {
    if p == s {
      InsertList(l, m, kids, dep, s);
    } else if p == dep {
      InsertTop(l, m, kids, dep, s);
    } else {
      InsertElsewhere(l, m, kids, dep, s, p);
    }
  }

  lemma InsertTop(l: Links, m: Links, kids: Kids, dep: Id, s: Id)
    requires Shaped(l, kids) && dep in l && s in l && dep != s && l[s].depPrev.None?
    requires InsertedLinks(l, m, dep, s, kids[s], kids[dep])
    ensures ChildList(m, dep, [s])
  {
    assert KnownToParent(l, kids, s);
    if kids[dep] != [] { NotAmongKids(l, kids, dep, s, kids[dep][0]); }
    if kids[s] != [] { NotAmongKids(l, kids, s, s, kids[s][|kids[s]| - 1]); }
    assert ChildLink(m, dep, [s], 0);
  }

  // --------------------------------------------------------------------- taking out

  /** The children `k` with the `i`-th replaced by `more`. */
  function Spliced(k: seq<Id>, i: nat, more: seq<Id>): seq<Id>
    requires i < |k|
  {
    k[..i] + more + k[i + 1..]
  }

  function FirstOf(more: seq<Id>, b: Option<Id>): Option<Id> { if more == [] then b else Some(more[0]) }

  function LastOf(more: seq<Id>, a: Option<Id>): Option<Id> { if more == [] then a else Some(more[|more| - 1]) }

  /** `m` is `l` with `s` taken out of the children of `p` and `more` in its place. */
  predicate SplicedLinks(l: Links, m: Links, p: Id, s: Id, more: seq<Id>, alone: bool)
    requires s in l
  {
    var a, b := l[s].sibPrev, l[s].sibNext;
    m.Keys == l.Keys &&
    forall x | x in l ::
      m[x] ==
        if x == s then Link(None, if alone then None else l[s].depNext, None, None)
        else Link(
          if x in more then Some(p) else l[x].depPrev,
          if x == p && a.None? then FirstOf(more, b) else l[x].depNext,
          if more != [] && x == more[0] then a else if b == Some(x) then LastOf(more, a) else l[x].sibPrev,
          if a == Some(x) then FirstOf(more, b) else if more != [] && x == more[|more| - 1] then b else l[x].sibNext)
  }

  /** `k` are the children of `p` and contain `s` at `i`; `more` are distinct children of `s`. */
  predicate SpliceReady(l: Links, p: Id, k: seq<Id>, i: nat, s: Id, more: seq<Id>)
  {
    && ChildList(l, p, k) && i < |k| && k[i] == s && s in l && p != s
    && (more == [] || ChildList(l, s, more)) && (forall x | x in more :: x !in k)
  }

  lemma SpliceLeft(l: Links, m: Links, p: Id, k: seq<Id>, i: nat, s: Id, more: seq<Id>, alone: bool, j: nat)
    requires SpliceReady(l, p, k, i, s, more) && SplicedLinks(l, m, p, s, more, alone) && j < i
    ensures ChildLink(m, p, Spliced(k, i, more), j)
  {
    assert ChildLink(l, p, k, j) && ChildLink(l, p, k, i);
    assert k[j] in k && k[j] !in more;
    assert more != [] ==> more[0] in more && more[|more| - 1] in more;
  }

  lemma SpliceRight(l: Links, m: Links, p: Id, k: seq<Id>, i: nat, s: Id, more: seq<Id>, alone: bool, j: nat)
    requires SpliceReady(l, p, k, i, s, more) && SplicedLinks(l, m, p, s, more, alone) && i < j < |k|
    ensures ChildLink(m, p, Spliced(k, i, more), j - 1 + |more|)
  {
    assert ChildLink(l, p, k, j) && ChildLink(l, p, k, i);
    assert k[j] in k && k[j] !in more;
    assert more != [] ==> more[0] in more && more[|more| - 1] in more;
    var r := Spliced(k, i, more);
    assert r[j - 1 + |more|] == k[j];
    if j > i + 1 { assert r[j - 2 + |more|] == k[j - 1]; }
    if j + 1 < |k| { assert r[j + |more|] == k[j + 1]; }
  }

  lemma SpliceMiddle(l: Links, m: Links, p: Id, k: seq<Id>, i: nat, s: Id, more: seq<Id>, alone: bool, j: nat)
    requires SpliceReady(l, p, k, i, s, more) && SplicedLinks(l, m, p, s, more, alone) && j < |more|
    ensures ChildLink(m, p, Spliced(k, i, more), i + j)
  {
    assert ChildLink(l, s, more, j) && ChildLink(l, p, k, i);
    assert more[j] in more;
    if i > 0 { assert k[i - 1] in k; }
    if i + 1 < |k| { assert k[i + 1] in k; }
    var r := Spliced(k, i, more);
    assert r[i + j] == more[j];
    if i + j > 0 { assert r[i + j - 1] == if j == 0 then k[i - 1] else more[j - 1]; }
    if i + j + 1 < |r| { assert r[i + j + 1] == if j + 1 < |more| then more[j + 1] else k[i + 1]; }
  }

  lemma SplicedDistinct(k: seq<Id>, i: nat, more: seq<Id>)
    requires Distinct(k) && i < |k| && Distinct(more) && forall x | x in more :: x !in k
    ensures Distinct(Spliced(k, i, more))
  {
    var a, b := k[..i], k[i + 1..];
    forall x | x in a ensures x !in more { assert x in k; }
    DistinctConcat(a, more);
    forall x | x in a + more ensures x !in b {
      forall j | 0 <= j < |b| ensures b[j] != x {
        assert b[j] == k[i + 1 + j] && k[i + 1 + j] in k;
        if x in a { assert k[IndexOf(a, x)] == x; }
      }
    }
    DistinctConcat(a + more, b);
  }

  lemma SpliceList(l: Links, m: Links, p: Id, k: seq<Id>, i: nat, s: Id, more: seq<Id>, alone: bool)
    requires SpliceReady(l, p, k, i, s, more) && SplicedLinks(l, m, p, s, more, alone)
    ensures ChildList(m, p, Spliced(k, i, more))
  {
    var r := Spliced(k, i, more);
    SplicedDistinct(k, i, more);
    assert ChildLink(l, p, k, i);
    forall j | 0 <= j < |r| ensures ChildLink(m, p, r, j) {
      if j < i {
        SpliceLeft(l, m, p, k, i, s, more, alone, j);
      } else if j < i + |more| {
        SpliceMiddle(l, m, p, k, i, s, more, alone, j - i);
      } else {
        SpliceRight(l, m, p, k, i, s, more, alone, j + 1 - |more|);
      }
    }
    SpliceHead(k, i, more);
  }

  lemma SpliceHead(k: seq<Id>, i: nat, more: seq<Id>)
    requires i < |k|
    ensures Head(Spliced(k, i, more)) == if i > 0 then Some(k[0]) else FirstOf(more, Behind(k, i))
  {}

  /** The children after `s` was taken out; its own children take its place unless it keeps them. */
  function TakenOutKids(kids: Kids, p: Id, s: Id, alone: bool): Kids
    requires p in kids && s in kids && s in kids[p]
  {
    var more := if alone then kids[s] else [];
    kids[p := Spliced(kids[p], IndexOf(kids[p], s), more)][s := if alone then [] else kids[s]]
  }

  lemma ReadyToSplice(l: Links, kids: Kids, p: Id, s: Id, more: seq<Id>)
    requires Shaped(l, kids) && p in l && s in l && p != s && s in kids[p] && (more == [] || more == kids[s])
    ensures SpliceReady(l, p, kids[p], IndexOf(kids[p], s), s, more)
  {
    assert ChildList(l, p, kids[p]) && ChildList(l, s, kids[s]);
    KidsApart(l, kids, s, p);
  }

  lemma SpliceElsewhere(l: Links, m: Links, kids: Kids, p: Id, s: Id, more: seq<Id>, alone: bool, q: Id)
    requires Shaped(l, kids) && p in l && s in l && p != s && s in kids[p] && more == (if alone then kids[s] else [])
    requires SplicedLinks(l, m, p, s, more, alone) && q in l && q != p && q != s
    ensures ChildList(m, q, kids[q])
  {
    var k, i := kids[q], IndexOf(kids[p], s);
    assert ChildList(l, q, k) && ChildList(l, p, kids[p]);
    assert ChildLink(l, p, kids[p], i);
    KidsApart(l, kids, q, p);
    KidsApart(l, kids, q, s);
    Neighbours(kids[p], i);
    forall j | 0 <= j < |k| ensures k[j] in k && k[j] !in more { }
    assert more != [] ==> more[0] in more && more[|more| - 1] in more;
    UntouchedList(l, m, q, k);
  }

  lemma Neighbours(k: seq<Id>, i: nat)
    requires i < |k|
    ensures Before(k, i).Some? ==> Before(k, i).value in k
    ensures Behind(k, i).Some? ==> Behind(k, i).value in k
  {}

  /** The list of the stream taken out: empty, or as it was. */
  lemma SpliceOwn(l: Links, m: Links, kids: Kids, p: Id, s: Id, more: seq<Id>, alone: bool)
    requires Shaped(l, kids) && p in l && s in l && p != s && s in kids[p] && more == (if alone then kids[s] else [])
    requires SplicedLinks(l, m, p, s, more, alone)
    ensures ChildList(m, s, if alone then [] else kids[s])
  {
    if !alone {
      var k, i := kids[s], IndexOf(kids[p], s);
      assert ChildList(l, s, k) && ChildList(l, p, kids[p]);
      assert ChildLink(l, p, kids[p], i);
      KidsApart(l, kids, s, p);
      Neighbours(kids[p], i);
      forall j | 0 <= j < |k| ensures k[j] in k && k[j] != s && ChildLink(m, s, k, j) {
        assert k[j] in k;
        assert ChildLink(l, s, k, j);
      }
    }
  }

  lemma SpliceParents(l: Links, m: Links, kids: Kids, p: Id, s: Id, more: seq<Id>, alone: bool, c: Id)
    requires Shaped(l, kids) && p in l && s in l && p != s && s in kids[p] && more == (if alone then kids[s] else [])
    requires SplicedLinks(l, m, p, s, more, alone) && c in l
    ensures KnownToParent(m, TakenOutKids(kids, p, s, alone), c)
  {
    var k, i := kids[p], IndexOf(kids[p], s);
    assert KnownToParent(l, kids, c) && ChildList(l, p, k);
    assert ChildLink(l, p, k, i);
    Neighbours(k, i);
    SplicedMembers(k, i, more);
    if c in more { ChildOf(l, kids, s, c); }
    if c in k { ChildOf(l, kids, p, c); }
    if more != [] { ChildOf(l, kids, s, more[0]); ChildOf(l, kids, s, more[|more| - 1]); }
  }

  lemma SplicedMembers(k: seq<Id>, i: nat, more: seq<Id>)
    requires i < |k| && Distinct(k)
    ensures forall x :: x in Spliced(k, i, more) <==> (x in k && x != k[i]) || x in more
  {
    assert k == k[..i] + [k[i]] + k[i + 1..];
    assert k[i] !in k[..i] && k[i] !in k[i + 1..];
  }

  /** The parents after `s` was taken out of the children of `p`. */
  function ParentsSpliced(par: Parents, p: Id, s: Id, more: seq<Id>): Parents
  {
    map x | x in par :: if x == s then None else if x in more then Some(p) else par[x]
  }

  lemma SpliceParentMap(l: Links, m: Links, p: Id, s: Id, more: seq<Id>, alone: bool)
    requires s in l && SplicedLinks(l, m, p, s, more, alone)
    ensures ParentsOf(m) == ParentsSpliced(ParentsOf(l), p, s, more)
  {}

  /** Taking a stream out keeps the tree in shape. */
  lemma SpliceShape(l: Links, m: Links, kids: Kids, p: Id, s: Id, more: seq<Id>, alone: bool)
    requires Shaped(l, kids) && p in l && s in l && p != s && s in kids[p] && more == (if alone then kids[s] else [])
    requires SplicedLinks(l, m, p, s, more, alone)
    ensures Shaped(m, TakenOutKids(kids, p, s, alone))
  {
    var after := TakenOutKids(kids, p, s, alone);
    assert after.Keys == kids.Keys == m.Keys;
    forall q | q in m ensures ChildList(m, q, after[q]) { SpliceLists(l, m, kids, p, s, more, alone, q); }
    forall c | c in m ensures KnownToParent(m, after, c) { SpliceParents(l, m, kids, p, s, more, alone, c); }
  }

  lemma SpliceLists(l: Links, m: Links, kids: Kids, p: Id, s: Id, more: seq<Id>, alone: bool, q: Id)
    requires Shaped(l, kids) && p in l && s in l && p != s && s in kids[p] && more == (if alone then kids[s] else [])
    requires SplicedLinks(l, m, p, s, more, alone) && q in l
    ensures ChildList(m, q, TakenOutKids(kids, p, s, alone)[q])
  {
    if q == p {
      ReadyToSplice(l, kids, p, s, more);
      SpliceList(l, m, p, kids[p], IndexOf(kids[p], s), s, more, alone);
    } else if q == s {
      SpliceOwn(l, m, kids, p, s, more, alone);
    } else {
      SpliceElsewhere(l, m, kids, p, s, more, alone, q);
    }
  }

  // ------------------------------------------------------------------ loops over siblings

  /** `k` from position `i` on is what following the sibling links from `k[i]` visits. */
  predicate Chain(l: Links, k: seq<Id>) { forall i | 0 <= i < |k| :: k[i] in l && l[k[i]].sibNext == Behind(k, i) }

  /** stream_last_sib. */
  method LastSib(l: Links, s: Id, ghost k: seq<Id>) returns (last: Id)
    requires k != [] && k[0] == s && Chain(l, k)
    ensures last == k[|k| - 1]
  {
    last := s;
    ghost var i := 0;
    while l[last].sibNext.Some?
      invariant 0 <= i < |k| && last == k[i]
      decreases |k| - i
    {
      last := l[last].sibNext.value;
      i := i + 1;
    }
  }

  /** `m` is `l` with the streams `k` given the parent `dep`. */
  predicate Adopted(l: Links, m: Links, k: seq<Id>, dep: Id)
  {
    m.Keys == l.Keys && forall x | x in l :: m[x] == if x in k then l[x].(depPrev := Some(dep)) else l[x]
  }

  lemma AdoptNext(l: Links, m: Links, k: seq<Id>, i: nat, dep: Id)
    requires i < |k| && k[i] in l && Adopted(l, m, k[..i], dep)
    ensures Adopted(l, m[k[i] := m[k[i]].(depPrev := Some(dep))], k[..i + 1], dep)
  {
    assert k[..i + 1] == k[..i] + [k[i]];
  }

  /** set_dep_prev: gives all siblings from `first` on the parent `dep`. */
  method SetDepPrev(l0: Links, first: Option<Id>, dep: Id, ghost k: seq<Id>) returns (l: Links)
    requires first == Head(k) && Chain(l0, k)
    ensures Adopted(l0, l, k, dep)
  {
    var x := first;
    l := l0;
    ghost var i := 0;
    while x.Some?
      invariant 0 <= i <= |k| && x == (if i < |k| then Some(k[i]) else None) && Adopted(l0, l, k[..i], dep)
      decreases |k| - i
    {
      AdoptNext(l0, l, k, i, dep);
      l := l[x.value := l[x.value].(depPrev := Some(dep))];
      x := l[x.value].sibNext;
      i := i + 1;
    }
    assert k[..i] == k;
  }

  // ------------------------------------------------------------------------ unlinking

  /** Links the neighbours of `s` to each other. */
  method Bypass(l0: Links, s: Id, p: Id, ghost kids: Kids) returns (l: Links)
    requires Shaped(l0, kids) && p in l0 && s in l0 && p != s && l0[s].depPrev == Some(p)
    ensures BypassedLinks(l0, l, p, s, [])
  {
    TakenOutLinks(l0, kids, p, s);
    var a, b := l0[s].sibPrev, l0[s].sibNext;
    l := l0;
    if a.Some? {
      l := LinkSib(l, a.value, b);
    } else {
      l := LinkDep(l, p, b);
      if b.Some? {
        l := l[b.value := l[b.value].(sibPrev := None)];
      }
    }
  }

  /** As `SplicedLinks`, but `s` itself still has its old links. */
  predicate BypassedLinks(l: Links, m: Links, p: Id, s: Id, more: seq<Id>)
    requires s in l
  {
    var a, b := l[s].sibPrev, l[s].sibNext;
    m.Keys == l.Keys && m[s] == l[s] &&
    forall x | x in l && x != s ::
      m[x] == Link(
        if x in more then Some(p) else l[x].depPrev,
        if x == p && a.None? then FirstOf(more, b) else l[x].depNext,
        if more != [] && x == more[0] then a else if b == Some(x) then LastOf(more, a) else l[x].sibPrev,
        if a == Some(x) then FirstOf(more, b) else if more != [] && x == more[|more| - 1] then b else l[x].sibNext)
  }

  /** What links the children of `s` in its place, before the last of them is linked on. */
  method PromoteFront(l0: Links, s: Id, p: Id, ghost kids: Kids) returns (l: Links)
    requires Shaped(l0, kids) && p in l0 && s in l0 && p != s && l0[s].depPrev == Some(p) && l0[s].depNext.Some?
    ensures kids[s] != [] && FrontLinked(l0, l, p, s, kids[s])
  {
    TakenOutLinks(l0, kids, p, s);
    FirstChild(l0, kids, s);
    KidsFacts(l0, kids, p, s);
    var a, first := l0[s].sibPrev, l0[s].depNext;
    if a.Some? {
      l := LinkSib(l0, a.value, first);
    } else {
      l := LinkDep(l0, p, first);
    }
    l := SetDepPrev(l, first, p, kids[s]);
  }

  lemma KidsFacts(l: Links, kids: Kids, p: Id, s: Id)
    requires Shaped(l, kids) && p in l && s in l && p != s && l[s].depPrev == Some(p)
    ensures Chain(l, kids[s]) && s !in kids[s] && kids[s] != [s]
    ensures forall x | x in kids[s] :: x in l && l[x].depPrev == Some(s)
    ensures kids[s] != [] ==> l[kids[s][0]].sibPrev.None? && kids[s][|kids[s]| - 1] in kids[s]
  {
    var k := kids[s];
    assert ChildList(l, s, k);
    forall i | 0 <= i < |k| ensures k[i] in l && l[k[i]].sibNext == Behind(k, i) { assert ChildLink(l, s, k, i); }
    forall x | x in k ensures x in l && l[x].depPrev == Some(s) { ChildOf(l, kids, s, x); }
    if k != [] { assert ChildLink(l, s, k, 0); }
  }

  /** The neighbours of `s` are children of its parent, and so is `s`. */
  lemma TakenOutLinks(l: Links, kids: Kids, p: Id, s: Id)
    requires Shaped(l, kids) && p in l && s in l && p != s && l[s].depPrev == Some(p)
    ensures s in kids[p]
    ensures
      var a, b := l[s].sibPrev, l[s].sibNext;
      && (a.Some? ==> a.value in l && a.value != s && l[a.value].depPrev == Some(p) && l[a.value].sibNext == Some(s))
      && (b.Some? ==> b.value in l && b.value != s && l[b.value].depPrev == Some(p) && l[b.value].sibPrev == Some(s))
      && (a.None? ==> l[p].depNext == Some(s)) && (a.Some? && b.Some? ==> a != b)
  {
    assert KnownToParent(l, kids, s) && ChildList(l, p, kids[p]);
    var k, i := kids[p], IndexOf(kids[p], s);
    assert ChildLink(l, p, k, i);
    if i > 0 { assert ChildLink(l, p, k, i - 1); }
    if i + 1 < |k| { assert ChildLink(l, p, k, i + 1); }
  }

  /** The link part of nghttp2_stream_dep_remove: the children of `s` take its place. */
  method TakeOut(l0: Links, s: Id, p: Id, ghost kids: Kids) returns (l: Links)
    requires Shaped(l0, kids) && p in l0 && s in l0 && p != s && l0[s].depPrev == Some(p)
    ensures SplicedLinks(l0, l, p, s, kids[s], true)
  {
    FirstChild(l0, kids, s);
    if l0[s].depNext.Some? {
      l := PromoteAll(l0, s, p, kids);
    } else {
      l := Bypass(l0, s, p, kids);
    }
    l := l[s := Unlinked];
  }

  method PromoteAll(l0: Links, s: Id, p: Id, ghost kids: Kids) returns (l: Links)
    requires Shaped(l0, kids) && p in l0 && s in l0 && p != s && l0[s].depPrev == Some(p) && l0[s].depNext.Some?
    ensures BypassedLinks(l0, l, p, s, kids[s])
  {
    FirstChild(l0, kids, s);
    TakenOutLinks(l0, kids, p, s);
    KidsFacts(l0, kids, p, s);
    KidsApart(l0, kids, s, p);
    l := PromoteFront(l0, s, p, kids);
    NoKidIsNeighbour(l0, kids, p, s);
    ghost var k := kids[s];
    assert ChildList(l0, s, k);
    assert ChildLink(l0, s, k, |k| - 1);
    if l[s].sibNext.Some? {
      var last := LastSib(l, l[s].depNext.value, kids[s]);
      PromotedLinks(l0, l, p, s, k);
      l := LinkSib(l, last, l[s].sibNext);
    }
  }

  /** The links after `PromoteFront`. */
  predicate FrontLinked(l: Links, m: Links, p: Id, s: Id, more: seq<Id>)
    requires s in l && more != []
  {
    m.Keys == l.Keys && m[s] == l[s] &&
    forall x | x in l && x != s ::
      m[x] == Link(
        if x in more then Some(p) else l[x].depPrev,
        if x == p && l[s].sibPrev.None? then Some(more[0]) else l[x].depNext,
        if x == more[0] then l[s].sibPrev else l[x].sibPrev,
        if l[s].sibPrev == Some(x) then Some(more[0]) else l[x].sibNext)
  }

  lemma PromotedLinks(l: Links, m: Links, p: Id, s: Id, more: seq<Id>)
    requires s in l && more != [] && FrontLinked(l, m, p, s, more) && l[s].sibNext.Some? && l[s].sibNext.value in l
    requires more[|more| - 1] in l && more[|more| - 1] != s && l[s].sibNext.value != s && l[s].sibNext.value !in more
    requires l[s].sibPrev.Some? ==> l[s].sibPrev.value !in more
    ensures BypassedLinks(l, LinkSib(m, more[|more| - 1], l[s].sibNext), p, s, more)
  {
    assert more[0] in more && more[|more| - 1] in more;
  }

  lemma NoKidIsNeighbour(l: Links, kids: Kids, p: Id, s: Id)
    requires Shaped(l, kids) && p in l && s in l && p != s && l[s].depPrev == Some(p)
    ensures l[s].sibPrev.Some? ==> l[s].sibPrev.value !in kids[s]
    ensures l[s].sibNext.Some? ==> l[s].sibNext.value !in kids[s]
  {
    TakenOutLinks(l, kids, p, s);
    KidsFacts(l, kids, p, s);
  }

  // ------------------------------------------------------------------------ inserting

  /** The links nghttp2_stream_dep_insert_subtree sets before it gives `theirs` their new parent. */
  method JoinKids(l0: Links, dep: Id, s: Id, ghost kids: Kids) returns (l: Links)
    requires Shaped(l0, kids) && dep in l0 && s in l0 && dep != s && l0[s].depPrev.None? && l0[dep].depNext.Some?
    ensures Joined(l0, l, dep, s, kids[s], kids[dep])
  {
    FirstChild(l0, kids, dep);
    FirstChild(l0, kids, s);
    assert ChildList(l0, s, kids[s]);
    var first := l0[dep].depNext;
    KidsApart(l0, kids, s, dep);
    NotAmongKids(l0, kids, dep, s, first.value);
    l := LinkDep(l0, dep, Some(s));
    if l[s].depNext.Some? {
      OwnChain(l0, kids, s);
      var last := LastSib(l, l[s].depNext.value, kids[s]);
      JoinedBehind(l0, dep, s, kids[s], kids[dep]);
      l := LinkSib(l, last, first);
    } else {
      JoinedDirectly(l0, dep, s, kids[dep]);
      l := LinkDep(l, s, first);
    }
  }

  lemma JoinedBehind(l: Links, dep: Id, s: Id, mine: seq<Id>, theirs: seq<Id>)
    requires dep in l && s in l && dep != s && mine != [] && theirs != [] && mine[|mine| - 1] in l && theirs[0] in l
    requires theirs[0] != s
    ensures Joined(l, LinkSib(LinkDep(l, dep, Some(s)), mine[|mine| - 1], Some(theirs[0])), dep, s, mine, theirs)
  {}

  lemma JoinedDirectly(l: Links, dep: Id, s: Id, theirs: seq<Id>)
    requires dep in l && s in l && dep != s && theirs != [] && theirs[0] in l && theirs[0] != s
    ensures Joined(l, LinkDep(LinkDep(l, dep, Some(s)), s, Some(theirs[0])), dep, s, [], theirs)
  {
    assert theirs[0] in theirs;
  }

  /** As `InsertedLinks`, but only the first of `theirs` may have its new parent already. */
  predicate Joined(l: Links, m: Links, dep: Id, s: Id, mine: seq<Id>, theirs: seq<Id>)
  {
    m.Keys == l.Keys &&
    forall x | x in l ::
      && m[x].(depPrev := None) == Link(
           None,
           if x == dep then Some(s) else if x == s && mine == [] then Head(theirs) else l[x].depNext,
           if mine != [] && theirs != [] && x == theirs[0] then Some(mine[|mine| - 1]) else l[x].sibPrev,
           if mine != [] && theirs != [] && x == mine[|mine| - 1] then Some(theirs[0]) else l[x].sibNext)
      && (x !in theirs ==> m[x].depPrev == if x == s then Some(dep) else l[x].depPrev)
  }

  lemma OwnChain(l: Links, kids: Kids, s: Id)
    requires Shaped(l, kids) && s in l
    ensures Chain(l, kids[s]) && (forall x | x in kids[s] :: x in l && l[x].depPrev == Some(s))
  {
    var k := kids[s];
    assert ChildList(l, s, k);
    forall i | 0 <= i < |k| ensures k[i] in l && l[k[i]].sibNext == Behind(k, i) { assert ChildLink(l, s, k, i); }
    forall x | x in k ensures x in l && l[x].depPrev == Some(s) { ChildOf(l, kids, s, x); }
  }

  lemma JoinedThenAdopted(l: Links, j: Links, m: Links, kids: Kids, dep: Id, s: Id)
    requires Shaped(l, kids) && dep in l && s in l && dep != s && l[s].depPrev.None?
    requires Joined(l, j, dep, s, kids[s], kids[dep]) && Adopted(j, m, kids[dep], s)
    ensures InsertedLinks(l, m, dep, s, kids[s], kids[dep])
  {
    forall x | x in kids[dep] ensures x != s { NotAmongKids(l, kids, dep, s, x); }
  }

  /** The sibling links of `theirs` are still in place when they are walked. */
  lemma JoinedChain(l: Links, j: Links, kids: Kids, dep: Id, s: Id)
    requires Shaped(l, kids) && dep in l && s in l && dep != s && l[s].depPrev.None?
    requires Joined(l, j, dep, s, kids[s], kids[dep])
    ensures Chain(j, kids[dep])
  {
    OwnChain(l, kids, dep);
    KidsApart(l, kids, s, dep);
    var k := kids[dep];
    forall i | 0 <= i < |k| ensures k[i] in j && j[k[i]].sibNext == Behind(k, i) {
      assert k[i] in k;
      if kids[s] != [] { assert kids[s][|kids[s]| - 1] in kids[s]; }
    }
  }

  /** The links nghttp2_stream_dep_insert sets after it gave the children of `dep` their new parent. */
  lemma AdoptedThenInserted(l: Links, a: Links, m: Links, kids: Kids, dep: Id, s: Id)
    requires Shaped(l, kids) && dep in l && s in l && dep != s && l[s].depPrev.None? && kids[s] == []
    requires Adopted(l, a, kids[dep], s)
    requires m == a[s := a[s].(depNext := l[dep].depNext, depPrev := Some(dep))][dep := a[dep].(depNext := Some(s))]
    ensures InsertedLinks(l, m, dep, s, kids[s], kids[dep])
  {
    FirstChild(l, kids, dep);
    forall x | x in kids[dep] ensures x != s { NotAmongKids(l, kids, dep, s, x); }
  }
}
