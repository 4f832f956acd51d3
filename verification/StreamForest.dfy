/**
 * The dependency forest as a whole (lib/nghttp2_stream.c): links, weights and queues
 * together, what every operation keeps, and the steps the operations are made of.
 */
module StreamForest {
  import opened Bytes
  import opened StreamSchedule
  import opened StreamLinks

  const Root: Id := 0

  // --------------------------------------------------------------------------- ranks

  /** The rank of `x` once there is room for `s` between `dep` and its children. */
  function Lift(par: Parents, rank: map<Id, nat>, dep: Id, s: Id, x: Id): nat
    requires Ranked(par, rank) && dep in par && s in par && x in par
  {
    if Below(par, rank, x, s) then rank[x] + rank[dep] + 1
    else if x != dep && Below(par, rank, x, dep) then rank[x] + rank[s] + rank[dep] + 2
    else rank[x]
  }

  function Lifted(par: Parents, rank: map<Id, nat>, dep: Id, s: Id): map<Id, nat>
    requires Ranked(par, rank) && dep in par && s in par
  {
    map x | x in par :: Lift(par, rank, dep, s, x)
  }

  /** `now` differs from `par` at most in that `s` is below `dep` and children of `dep` are below `s`. */
  predicate Between(par: Parents, now: Parents, dep: Id, s: Id)
  {
    && now.Keys == par.Keys
    && forall x | x in par ::
         now[x] == par[x] || (x == s && now[x] == Some(dep)) || (x != s && par[x] == Some(dep) && now[x] == Some(s))
  }

  /** Every parent is a stream. */
  predicate Closed(par: Parents) { forall x | x in par && par[x].Some? :: par[x].value in par }

  /** Moving a stream with no parent below a stream that is not below it makes no cycle. */
  lemma LiftedIsRanked(par: Parents, rank: map<Id, nat>, now: Parents, dep: Id, s: Id)
    requires Ranked(par, rank) && dep in par && s in par && par[s].None? && !Below(par, rank, dep, s)
    requires Closed(par) && Between(par, now, dep, s)
    ensures Ranked(now, Lifted(par, rank, dep, s))
  {
    forall x | x in now && now[x].Some?
      ensures now[x].value in par && Lift(par, rank, dep, s, now[x].value) < Lift(par, rank, dep, s, x)
    {
      LiftedStep(par, rank, now, dep, s, x);
    }
  }

  lemma LiftedStep(par: Parents, rank: map<Id, nat>, now: Parents, dep: Id, s: Id, x: Id)
    requires Ranked(par, rank) && dep in par && s in par && par[s].None? && !Below(par, rank, dep, s)
    requires Closed(par) && Between(par, now, dep, s) && x in now && now[x].Some?
    ensures now[x].value in par && Lift(par, rank, dep, s, now[x].value) < Lift(par, rank, dep, s, x)
  {
    BelowStep(par, rank, x, s);
    BelowStep(par, rank, x, dep);
    BelowStep(par, rank, dep, dep);
    BelowStep(par, rank, s, s);
    if x == dep && par[x].Some? { NotBelowChild(par, rank, par[x].value, dep); }
  }

  /** What lies below `top` ranks no lower. */
  lemma {:induction false} NotBelowChild(par: Parents, rank: map<Id, nat>, x: Id, top: Id)
    requires Ranked(par, rank) && x in par && top in par && Closed(par)
    ensures rank[x] < rank[top] ==> !Below(par, rank, x, top)
    decreases rank[x]
  {
    BelowStep(par, rank, x, top);
    if x != top && par[x].Some? { NotBelowChild(par, rank, par[x].value, top); }
  }

  /** `Below` one step up. */
  lemma BelowStep(par: Parents, rank: map<Id, nat>, x: Id, top: Id)
    requires Ranked(par, rank) && x in par && Closed(par)
    ensures Below(par, rank, x, top) <==> x == top || (par[x].Some? && Below(par, rank, par[x].value, top))
  {
  }

  // ------------------------------------------------------------------------- weights

  function SumWeights(n: Nodes, k: seq<Id>): nat
    requires forall x | x in k :: x in n
  {
    if k == [] then 0 else SumWeights(n, k[..|k| - 1]) + n[k[|k| - 1]].weight
  }

  lemma {:induction false} SumConcat(n: Nodes, a: seq<Id>, b: seq<Id>)
    requires forall x | x in a + b :: x in n
    ensures (forall x | x in a :: x in n) && (forall x | x in b :: x in n)
    ensures SumWeights(n, a + b) == SumWeights(n, a) + SumWeights(n, b)
    decreases |b|
  {
    forall x | x in a || x in b ensures x in n { assert x in a + b; }
    if b == [] {
      assert a + b == a;
    } else {
      assert (a + b)[..|a + b| - 1] == a + b[..|b| - 1];
      SumConcat(n, a, b[..|b| - 1]);
    }
  }

  lemma {:induction false} SumSame(n: Nodes, m: Nodes, k: seq<Id>)
    requires forall x | x in k :: x in n && x in m && n[x].weight == m[x].weight
    ensures SumWeights(n, k) == SumWeights(m, k)
    decreases |k|
  {
    if k != [] { SumSame(n, m, k[..|k| - 1]); }
  }

  lemma SumSpliced(n: Nodes, k: seq<Id>, i: nat, more: seq<Id>)
    requires i < |k| && (forall x | x in k :: x in n) && forall x | x in more :: x in n
    ensures forall x | x in Spliced(k, i, more) :: x in n
    ensures SumWeights(n, Spliced(k, i, more)) == SumWeights(n, k) - n[k[i]].weight + SumWeights(n, more)
  {
    var a, b := k[..i], k[i + 1..];
    assert k == a + [k[i]] + b;
    SumConcat(n, a + [k[i]], b);
    SumConcat(n, a, [k[i]]);
    assert [k[i]][..0] == [];
    assert SumWeights(n, [k[i]]) == n[k[i]].weight;
    forall x | x in a + more + b ensures x in n {}
    SumConcat(n, a + more, b);
    SumConcat(n, a, more);
  }

  /** The weights of its children, summed up. */
  predicate SumOk(n: Nodes, kids: Kids, p: Id)
  {
    && p in n && p in kids && (forall x | x in kids[p] :: x in n)
    && n[p].sumDepWeight == SumWeights(n, kids[p])
  }

  /** Weights are in range, and every stream knows the sum of its children's. */
  ghost predicate Weighted(n: Nodes, kids: Kids)
  {
    (forall x | x in n :: 1 <= n[x].weight <= 256) && n.Keys == kids.Keys && forall p {:trigger SumOk(n, kids, p)} | p in n :: SumOk(n, kids, p)
  }

  lemma WeightsUntouched(n: Nodes, m: Nodes, kids: Kids)
    requires Weighted(n, kids) && m.Keys == n.Keys
    requires forall x | x in n :: m[x].weight == n[x].weight && m[x].sumDepWeight == n[x].sumDepWeight
    ensures Weighted(m, kids)
  {
    forall p | p in m ensures SumOk(m, kids, p) {
      assert SumOk(n, kids, p);
      SumSame(n, m, kids[p]);
    }
  }

  /** nghttp2_stream_dep_distributed_weight. */
  function DistributedWeight(n: Node, weight: nat): (w: nat)
    requires 1 <= n.weight <= 256 && 0 < weight <= n.sumDepWeight
    ensures 1 <= w <= 256
  {
    ShareIsSmaller(n.weight, weight, n.sumDepWeight);
    Max(1, n.weight * weight / n.sumDepWeight)
  }

  lemma ShareIsSmaller(a: nat, w: nat, sum: nat)
    requires w <= sum && sum > 0
    ensures 0 <= a * w / sum <= a
  {
    var q, r := a * w / sum, a * w % sum;
    assert a * w == sum * q + r;
    assert a * (sum - w) == a * sum - a * w >= 0 by { if a > 0 { ProductIsNat(a, sum - w); } }
    MultipleIsLarge(q - a, sum);
    assert (q - a) * sum == sum * q - a * sum;
    MultipleIsLarge(q, sum);
  }

  lemma ProductIsNat(a: nat, b: nat)
    ensures a * b >= 0
  {
  }

  // ---------------------------------------------------------------------- the forest

  /** The links form a forest below `Root` and other streams without parent; sums and queues are right. */
  ghost predicate Forest(l: Links, n: Nodes, kids: Kids, rank: map<Id, nat>)
  {
    && l.Keys == n.Keys && Root in l && l[Root].depPrev.None?
    && Shaped(l, kids) && Ranked(ParentsOf(l), rank) && Scheduled(n, ParentsOf(l), {}) && Weighted(n, kids)
  }

  predicate Bare(kids: Kids, x: Id) { x in kids ==> kids[x] == [] }

  /** A stream without parent has no children, unless it is the root or one of `but`. */
  ghost predicate Rooted(par: Parents, kids: Kids, but: set<Id>)
  {
    forall x {:trigger Bare(kids, x)} | x in par && x != Root && x !in but && par[x].None? :: Bare(kids, x)
  }

  /** nghttp2_stream_in_dep_tree. */
  predicate InTree(l: Link) { l.depPrev.Some? || l.depNext.Some? || l.sibPrev.Some? || l.sibNext.Some? }

  /** Only streams with a parent have links. */
  lemma InTreeHasParent(l: Links, kids: Kids, x: Id)
    requires Shaped(l, kids) && Rooted(ParentsOf(l), kids, {}) && x in l && x != Root
    ensures InTree(l[x]) <==> l[x].depPrev.Some?
    ensures !InTree(l[x]) ==> l[x] == Unlinked && kids[x] == []
  {
    assert KnownToParent(l, kids, x) && ChildList(l, x, kids[x]) && (l[x].depPrev.None? ==> Bare(kids, x));
  }

  /** Every stream that is in the tree is below the root. */
  lemma {:induction false} AllBelowRoot(l: Links, n: Nodes, kids: Kids, rank: map<Id, nat>, x: Id)
    requires Forest(l, n, kids, rank) && Rooted(ParentsOf(l), kids, {}) && x in l && (InTree(l[x]) || x == Root)
    ensures Below(ParentsOf(l), rank, x, Root)
    decreases rank[x]
  {
    if x != Root {
      InTreeHasParent(l, kids, x);
      var p := l[x].depPrev.value;
      assert KnownToParent(l, kids, x) && ChildList(l, p, kids[p]);
      assert p != Root && l[p].depPrev.None? ==> Bare(kids, p);
      AllBelowRoot(l, n, kids, rank, p);
    }
  }

  /** The children are the streams with this parent. */
  lemma KidsByParent(l: Links, kids: Kids, p: Id)
    requires Shaped(l, kids) && p in l
    ensures forall x :: x in kids[p] <==> x in l && l[x].depPrev == Some(p)
  {
    forall x | x in kids[p] ensures x in l && l[x].depPrev == Some(p) { ChildOf(l, kids, p, x); }
    forall x | x in l && l[x].depPrev == Some(p) ensures x in kids[p] { assert KnownToParent(l, kids, x); }
  }

  /** A stream without parent is not queued. */
  lemma LooseIsUnqueued(n: Nodes, par: Parents, ex: set<Id>, s: Id)
    requires Scheduled(n, par, ex) && s in n && par[s].None?
    ensures !n[s].queued
  {
    assert InParentsQueue(n, par, s);
  }

  function WithItem(n: Nodes, s: Id, item: bool, deferred: set<Reason>): Nodes
    requires s in n
  {
    n[s := n[s].(item := item, deferred := deferred)]
  }

  /** What a stream has to send may change while it is exempt. */
  lemma ItemMayChange(n: Nodes, par: Parents, s: Id, item: bool, deferred: set<Reason>)
    requires Scheduled(n, par, {}) && s in n
    ensures Scheduled(WithItem(n, s, item, deferred), par, {s})
    ensures n[s].obq != [] && par[s].Some? ==> n[s].queued
    ensures Active(WithItem(n, s, item, deferred)[s]) == Active(n[s]) ==> Scheduled(WithItem(n, s, item, deferred), par, {})
  {
    var m := WithItem(n, s, item, deferred);
    forall x | x in m ensures QueueOk(m, par, x) {
      assert QueueOk(n, par, x);
      UntouchedQueueOk(n, m, par, x);
    }
    forall c | c in m ensures InParentsQueue(m, par, c) { assert InParentsQueue(n, par, c); }
    forall x | x in m && x !in {s} ensures QueuedIffActive(m, par, x) { assert QueuedIffActive(n, par, x); }
    assert QueuedIffActive(n, par, s);
    if QueuedIffActive(m, par, s) { OneSettled(m, par, s, {}); }
  }

  /** With a new item and the queues changed accordingly, the queues are all there is to see to. */
  lemma ItemChanged(l: Links, n: Nodes, s: Id, item: bool, deferred: set<Reason>, m: Nodes, kids: Kids, rank: map<Id, nat>)
    requires Forest(l, n, kids, rank) && s in n
    requires OnlyQueues(WithItem(n, s, item, deferred), m) || OnlyUnqueued(WithItem(n, s, item, deferred), m)
    ensures Forest(l, m, kids, rank) <==> Scheduled(m, ParentsOf(l), {})
  {
    WeightsUntouched(n, m, kids);
  }

  lemma RecordedIsTrue(par: Parents, rank: map<Id, nat>, dest: Option<Id>)
    requires Ranked(par, rank) && (dest.Some? ==> dest.value in par)
    ensures TrueUpward(par, par, rank, dest)
  {}

  /** stream_update_dep_on_attach_item for the stream `s`, whose item or deferral just changed. */
  method Activate(l: Links, n0: Nodes, s: Id, ghost rank: map<Id, nat>) returns (n: Nodes)
    requires s in n0 && Scheduled(n0, ParentsOf(l), {s}) && Ranked(ParentsOf(l), rank) && SubtreeActive(n0[s])
    ensures Scheduled(n, ParentsOf(l), {}) && OnlyQueues(n0, n) && QueuedStay(n0, n) && Joins(n0, n, ParentsOf(l))
  {
    RecordedIsTrue(ParentsOf(l), rank, l[s].depPrev);
    assert {} + {s} == {s};
    n := ObqPush(n0, ParentsOf(l), l[s].depPrev, s, ParentsOf(l), rank, {});
  }

  /** stream_update_dep_on_detach_item; an active stream with nothing below it is left unqueued. */
  method Deactivate(l: Links, n0: Nodes, s: Id, ghost rank: map<Id, nat>) returns (n: Nodes)
    requires s in n0 && Scheduled(n0, ParentsOf(l), {s}) && Ranked(ParentsOf(l), rank)
    requires n0[s].obq != [] && l[s].depPrev.Some? ==> n0[s].queued
    ensures Scheduled(n, ParentsOf(l), {}) <==> (!Active(n0[s]) || n0[s].obq != [] || l[s].depPrev.None?)
    ensures OnlyUnqueued(n0, n) && Leaves(n0, n)
  {
    ghost var par := ParentsOf(l);
    n := n0;
    NoneLeaves(n0);
    if n[s].obq == [] {
      RecordedIsTrue(par, rank, par[s]);
      n := ObqRemove(n0, ParentsOf(l), s, par, rank);
    }
    assert FlagsOk(n, par, {}) ==> QueuedIffActive(n, par, s);
    if QueuedIffActive(n, par, s) { OneSettled(n, par, s, {}); }
  }

  /** A number no rank exceeds. */
  ghost function Bound(rank: map<Id, nat>): (b: nat)
    ensures forall x | x in rank :: rank[x] <= b
  {
    if rank == map[] then 0
    else
      var x :| x in rank;
      var rest := rank - {x};
      assert forall y | y in rank && y != x :: y in rest && rest[y] == rank[y];
      Max(rank[x], Bound(rest))
  }

  // ------------------------------------------------------------------------- adding

  /** `s` may become a child of `dep`: it has no parent, and `dep` is not below it. */
  ghost predicate MayJoin(l: Links, n: Nodes, kids: Kids, rank: map<Id, nat>, dep: Id, s: Id)
  {
    && Forest(l, n, kids, rank) && dep in l && s in l && s != Root && l[s].depPrev.None?
    && !Below(ParentsOf(l), rank, dep, s)
  }

  function AddWeight(n: Nodes, dep: Id, s: Id): Nodes
    requires dep in n && s in n
  {
    n[dep := n[dep].(sumDepWeight := n[dep].sumDepWeight + n[s].weight)]
  }

  /** The links after nghttp2_stream_dep_add. */
  lemma AddLinks(l: Links, n: Nodes, kids: Kids, rank: map<Id, nat>, dep: Id, s: Id)
    requires MayJoin(l, n, kids, rank, dep, s)
    ensures dep != s && (l[dep].depNext.Some? ==> l[dep].depNext.value in l)
    ensures
      var m, par := LinkFirst(l, dep, s), ParentsOf(l)[s := Some(dep)];
      && ParentsOf(m) == par && m.Keys == l.Keys && Shaped(m, Added(kids, dep, s))
      && Ranked(par, Lifted(ParentsOf(l), rank, dep, s))
  {
    FirstChild(l, kids, dep);
    LinkFirstAdds(l, kids, dep, s);
    var m := LinkFirst(l, dep, s);
    AddShape(l, m, kids, dep, s);
    AddParentMap(l, m, dep, s);
    LiftedIsRanked(ParentsOf(l), rank, ParentsOf(l)[s := Some(dep)], dep, s);
  }

  /** The queues and sums after nghttp2_stream_dep_add: only `s` may not be queued as it should. */
  lemma AddQueues(n: Nodes, par: Parents, kids: Kids, dep: Id, s: Id)
    requires Scheduled(n, par, {}) && Weighted(n, kids) && dep in n && s in n && par[s].None?
    ensures Scheduled(AddWeight(n, dep, s), par[s := Some(dep)], {s})
    ensures Weighted(AddWeight(n, dep, s), Added(kids, dep, s))
  {
    LooseIsUnqueued(n, par, {}, s);
    RelinkKeeps(n, par, s, Some(dep), {});
    MeasuresMayChange(n, AddWeight(n, dep, s), par[s := Some(dep)], {s});
    AddedWeights(n, kids, dep, s);
  }

  lemma AddedWeights(n: Nodes, kids: Kids, dep: Id, s: Id)
    requires Weighted(n, kids) && dep in n && s in n
    ensures Weighted(AddWeight(n, dep, s), Added(kids, dep, s))
  {
    var m, after := AddWeight(n, dep, s), Added(kids, dep, s);
    forall p | p in m ensures SumOk(m, after, p) {
      assert SumOk(n, kids, p);
      SumSame(n, m, kids[p]);
      if p == dep {
        SumConcat(m, [s], kids[dep]);
        SumOne(m, s);
      }
    }
  }

  lemma SumOne(n: Nodes, s: Id)
    requires s in n
    ensures SumWeights(n, [s]) == n[s].weight
  {
    assert [s][..0] == [];
  }

  /** Queues the new child `s` if it has something to send. */
  method QueueNew(l: Links, n0: Nodes, s: Id, ghost rank: map<Id, nat>) returns (n: Nodes)
    requires s in n0 && Scheduled(n0, ParentsOf(l), {s}) && Ranked(ParentsOf(l), rank) && !n0[s].queued
    ensures Scheduled(n, ParentsOf(l), {}) && OnlyQueues(n0, n) && (!SubtreeActive(n0[s]) ==> n == n0)
    ensures QueuedStay(n0, n) && Joins(n0, n, ParentsOf(l))
  {
    n := n0;
    NoneJoins(n0, ParentsOf(l));
    if SubtreeActive(n[s]) {
      n := Activate(l, n, s, rank);
    } else {
      OneSettled(n, ParentsOf(l), s, {});
    }
  }

  /** nghttp2_stream_dep_add_subtree; nghttp2_stream_dep_add if `s` has nothing to send. */
  method AddBelow(l0: Links, n0: Nodes, dep: Id, s: Id, ghost kids: Kids, ghost rank: map<Id, nat>)
    returns (l: Links, n: Nodes)
    requires MayJoin(l0, n0, kids, rank, dep, s)
    ensures Forest(l, n, Added(kids, dep, s), Lifted(ParentsOf(l0), rank, dep, s))
    ensures ParentsOf(l) == ParentsOf(l0)[s := Some(dep)] && OnlyQueues(AddWeight(n0, dep, s), n)
    ensures !SubtreeActive(n0[s]) ==> n == AddWeight(n0, dep, s)
    ensures Settles(n0, n, ParentsOf(l0), ParentsOf(l))
  {
    AddLinks(l0, n0, kids, rank, dep, s);
    AddQueues(n0, ParentsOf(l0), kids, dep, s);
    LooseIsUnqueued(n0, ParentsOf(l0), {}, s);
    l := LinkFirst(l0, dep, s);
    n := QueueNew(l, AddWeight(n0, dep, s), s, Lifted(ParentsOf(l0), rank, dep, s));
    WeightsUntouched(AddWeight(n0, dep, s), n, Added(kids, dep, s));
    AddSettles(n0, n, ParentsOf(l0), dep, s);
  }

  lemma AddSettles(n0: Nodes, n: Nodes, par: Parents, dep: Id, s: Id)
    requires n0.Keys == par.Keys && s in n0 && dep in n0 && !n0[s].queued && forall x | x in n0 :: n0[x].weight > 0
    requires OnlyQueues(AddWeight(n0, dep, s), n) && QueuedStay(AddWeight(n0, dep, s), n)
    requires Joins(AddWeight(n0, dep, s), n, par[s := Some(dep)])
    ensures Settles(n0, n, par, par[s := Some(dep)])
  {
    var m := AddWeight(n0, dep, s);
    NothingSettles(m, par);
    SettlesRelinked(m, m, par, par, s, Some(dep));
    SettlesPush(m, m, n, par, par[s := Some(dep)]);
    SettlesFromBefore(n0, m, n, par, par[s := Some(dep)]);
  }

  // -------------------------------------------------------------------- taking out

  lemma KidWeighs(n: Nodes, kids: Kids, p: Id, s: Id)
    requires Weighted(n, kids) && p in n && s in kids[p]
    ensures s in n && n[p].sumDepWeight >= n[s].weight
  {
    assert SumOk(n, kids, p);
    SumSpliced(n, kids[p], IndexOf(kids[p], s), []);
  }

  function DropWeight(n: Nodes, p: Id, s: Id): Nodes
    requires p in n && s in n
  {
    n[p := n[p].(sumDepWeight := n[p].sumDepWeight - n[s].weight)]
  }

  lemma DroppedWeights(n: Nodes, kids: Kids, p: Id, s: Id)
    requires Weighted(n, kids) && p in n && s in kids[p] && s in n && p != s
    ensures Weighted(DropWeight(n, p, s), TakenOutKids(kids, p, s, false))
  {
    var m, after := DropWeight(n, p, s), TakenOutKids(kids, p, s, false);
    forall q | q in m ensures SumOk(m, after, q) {
      assert SumOk(n, kids, q);
      SumSame(n, m, kids[q]);
      if q == p { SumSpliced(m, kids[p], IndexOf(kids[p], s), []); }
    }
  }

  /** A stream with a parent is one of its children. */
  lemma ParentFacts(l: Links, n: Nodes, kids: Kids, rank: map<Id, nat>, p: Id, s: Id)
    requires Forest(l, n, kids, rank) && s in l && l[s].depPrev == Some(p)
    ensures p in l && p != s && s in kids[p] && s != Root
  {
    assert KnownToParent(l, kids, s);
  }

  /** The links after nghttp2_stream_dep_remove_subtree. */
  lemma BypassedShape(l: Links, m: Links, kids: Kids, p: Id, s: Id)
    requires Shaped(l, kids) && p in l && s in l && p != s && s in kids[p] && l[s].depPrev == Some(p)
    requires BypassedLinks(l, m, p, s, [])
    ensures ParentsOf(m) == ParentsOf(l)
    ensures
      var r := m[s := m[s].(sibPrev := None, sibNext := None, depPrev := None)];
      r.Keys == l.Keys && ParentsOf(r) == ParentsOf(l)[s := None] && Shaped(r, TakenOutKids(kids, p, s, false))
  {
    var r := m[s := m[s].(sibPrev := None, sibNext := None, depPrev := None)];
    SpliceShape(l, r, kids, p, s, [], false);
  }

  /** A stream that is not queued may lose its parent. */
  lemma LoosenKeeps(n: Nodes, par: Parents, s: Id)
    requires Scheduled(n, par, {s}) && s in n && !n[s].queued
    ensures Scheduled(n, par[s := None], {})
  {
    RelinkKeeps(n, par, s, None, {s});
    Settled(n, par[s := None], {s} + {s}, {});
  }

  /** Takes `s` out of its parent's queue before it loses its parent. */
  method Unqueue(n0: Nodes, up: Parents, s: Id, ghost par: Parents, ghost rank: map<Id, nat>) returns (n: Nodes)
    requires Scheduled(n0, par, {s}) && Ranked(par, rank) && s in n0 && s in up && up[s] == par[s]
    requires TrueUpward(up, par, rank, par[s])
    ensures Scheduled(n, par[s := None], {}) && OnlyUnqueued(n0, n) && Leaves(n0, n) && !n[s].queued
  {
    n := n0;
    NoneLeaves(n0);
    if n[s].queued {
      n := ObqRemove(n0, up, s, par, rank);
    }
    LoosenKeeps(n, par, s);
  }

  lemma DropReady(n: Nodes, par: Parents, kids: Kids, p: Id, s: Id)
    requires Scheduled(n, par, {}) && Weighted(n, kids) && p in n && s in n && s in kids[p] && p != s
    ensures Scheduled(DropWeight(n, p, s), par, {s}) && Weighted(DropWeight(n, p, s), TakenOutKids(kids, p, s, false))
  {
    DroppedWeights(n, kids, p, s);
    MeasuresMayChange(n, DropWeight(n, p, s), par, {});
    WiderExemption(DropWeight(n, p, s), par, {}, {s});
  }

  /** nghttp2_stream_dep_remove_subtree. */
  method RemoveSubtree(l0: Links, n0: Nodes, s: Id, ghost kids: Kids, ghost rank: map<Id, nat>) returns (l: Links, n: Nodes)
    requires Forest(l0, n0, kids, rank) && s in l0 && l0[s].depPrev.Some?
    ensures
      var p := l0[s].depPrev.value;
      && p in n0 && s in kids[p] && Forest(l, n, TakenOutKids(kids, p, s, false), rank)
      && ParentsOf(l) == ParentsOf(l0)[s := None] && OnlyUnqueued(DropWeight(n0, p, s), n)
    ensures Settles(n0, n, ParentsOf(l0), ParentsOf(l))
  {
    var p := l0[s].depPrev.value;
    ParentFacts(l0, n0, kids, rank, p, s);
    l := Bypass(l0, s, p, kids);
    BypassedShape(l0, l, kids, p, s);
    n := DropWeight(n0, p, s);
    DropReady(n0, ParentsOf(l0), kids, p, s);
    RecordedIsTrue(ParentsOf(l0), rank, Some(p));
    n := Unqueue(n, ParentsOf(l), s, ParentsOf(l0), rank);
    WeightsUntouched(DropWeight(n0, p, s), n, TakenOutKids(kids, p, s, false));
    l := l[s := l[s].(sibPrev := None, sibNext := None, depPrev := None)];
    LooseIsRanked(ParentsOf(l0), rank, s);
    DropSettles(n0, n, ParentsOf(l0), p, s);
  }

  lemma LooseIsRanked(par: Parents, rank: map<Id, nat>, s: Id)
    requires Ranked(par, rank) && s in par
    ensures Ranked(par[s := None], rank)
  {}

  lemma DropSettles(n0: Nodes, n: Nodes, par: Parents, p: Id, s: Id)
    requires n0.Keys == par.Keys && p in n0 && s in n0 && forall x | x in n0 :: n0[x].weight > 0
    requires OnlyUnqueued(DropWeight(n0, p, s), n) && Leaves(DropWeight(n0, p, s), n) && !n[s].queued
    ensures Settles(n0, n, par, par[s := None])
  {
    var m := DropWeight(n0, p, s);
    NothingSettles(m, par);
    SettlesLeave(m, m, n, par, par);
    SettlesRelinked(m, n, par, par, s, None);
    SettlesFromBefore(n0, m, n, par, par[s := None]);
  }

  // ------------------------------------------------------------- moving all children

  /** The streams `k` have the parent `to`. */
  function Moved(par: Parents, k: seq<Id>, to: Id): Parents { map x | x in par :: if x in k then Some(to) else par[x] }

  lemma MovedNext(par: Parents, k: seq<Id>, i: nat, to: Id)
    requires i < |k| && k[i] in par
    ensures Moved(par, k[..i + 1], to) == Moved(par, k[..i], to)[k[i] := Some(to)]
  {
    assert k[..i + 1] == k[..i] + [k[i]];
  }

  /** `k` are children of `src` in `par`, and `to` can be their parent. */
  predicate Movable(n: Nodes, par: Parents, rank: map<Id, nat>, k: seq<Id>, src: Id, to: Id)
  {
    && n.Keys == par.Keys && Ranked(par, rank) && src in par && to in par && Distinct(k) && src !in k && to !in k
    && forall x | x in k :: x in par && par[x] == Some(src) && rank[to] < rank[x]
  }

  /** The recorded parents are right but for `k`. */
  predicate UpBut(up: Parents, par: Parents, k: seq<Id>) { forall x | x in par && x !in k :: x in up && up[x] == par[x] }

  lemma UpwardIsTrue(up: Parents, n: Nodes, par: Parents, rank: map<Id, nat>, k: seq<Id>, src: Id, to: Id, i: nat)
    requires Movable(n, par, rank, k, src, to) && i <= |k| && UpBut(up, par, k)
    ensures Ranked(Moved(par, k[..i], to), rank) && TrueUpward(up, Moved(par, k[..i], to), rank, Some(to))
  {}

  /** One child moved: it is queued below `to` from now on. */
  method MoveKid(n0: Nodes, up: Parents, to: Id, src: Id, si: Id, ghost i: nat, ghost k: seq<Id>,
                 ghost par: Parents, ghost rank: map<Id, nat>, ghost ex: set<Id>) returns (n: Nodes)
    requires Movable(n0, par, rank, k, src, to) && i < |k| && si == k[i] && UpBut(up, par, k)
    requires Scheduled(n0, Moved(par, k[..i], to), ex) && src in ex && si !in ex
    ensures Scheduled(n, Moved(par, k[..i + 1], to), ex) && OnlyQueues(n0, n)
    ensures !n0[si].queued ==> n == n0
    ensures n0[si].queued ==> n[to].obq != [] && forall x | x in n0 && n0[x].queued :: n[x].queued
    ensures n[si].queued == n0[si].queued && MovedTo(n0, n, Moved(par, k[..i], to), to, si)
    ensures forall x | x in n0 && x != si && x != src && rank[x] > rank[to] :: n[x] == n0[x]
  {
    MovedNext(par, k, i, to);
    ghost var now := Moved(par, k[..i], to);
    assert si !in k[..i];
    if n0[si].queued {
      UpwardIsTrue(up, n0, par, rank, k, src, to, i + 1);
      n := ObqMove(n0, up, to, src, si, now, rank, ex);
      assert ex + {src} == ex;
      assert InParentsQueue(n, now[si := Some(to)], si);
    } else {
      MoveUnqueued(n0, now, si, Some(to), ex);
      n := n0;
      NoneJoins(n0, now[si := Some(to)]);
    }
  }

  /** Once a child was moved, `s` has something to send and `dep` is queued. */
  predicate SomeMoved(n: Nodes, par: Parents, dep: Id, s: Id)
    requires dep in n && s in n && dep in par
  {
    n[s].obq != [] && (par[dep].Some? ==> n[dep].queued)
  }

  /** The first `i` of the children `k` of `dep` are moved below `s`. */
  ghost predicate AdoptedSoFar(n0: Nodes, n: Nodes, par: Parents, k: seq<Id>, i: nat, dep: Id, s: Id)
    requires dep in n0 && s in n0 && dep in par && i <= |k|
  {
    && Scheduled(n, Moved(par, k[..i], s), {s, dep}) && OnlyQueues(n0, n)
    && (n == n0 || SomeMoved(n, par, dep, s))
  }

  /** And their cycles. */
  ghost predicate AdoptedCycles(n0: Nodes, n: Nodes, par: Parents, k: seq<Id>, i: nat, s: Id)
    requires i <= |k|
  {
    Settles(n0, n, par, Moved(par, k[..i], s)) && StillQueued(n0, n)
  }

  lemma AdoptedCycle(n0: Nodes, a: Nodes, b: Nodes, par: Parents, k: seq<Id>, i: nat, dep: Id, s: Id)
    requires i < |k| && AdoptedCycles(n0, a, par, k, i, s) && OnlyQueues(a, b) && MovedTo(a, b, Moved(par, k[..i], s), s, k[i])
    requires k[i] in n0 && k[i] in par && par[k[i]] == Some(dep) && dep != s && b[k[i]].queued == a[k[i]].queued
    requires forall x | x in a && x != k[i] && a[x].queued :: b[x].queued
    ensures AdoptedCycles(n0, b, par, k, i + 1, s)
  {
    MovedNext(par, k, i, s);
    SettlesMove(n0, a, b, par, Moved(par, k[..i], s), s, k[i]);
  }

  method AdoptKid(ghost n0: Nodes, n1: Nodes, up: Parents, dep: Id, s: Id, si: Id, ghost i: nat,
                  ghost k: seq<Id>, ghost par: Parents, ghost rank: map<Id, nat>) returns (n: Nodes)
    requires Movable(n0, par, rank, k, dep, s) && dep != s && Scheduled(n0, par, {s}) && i < |k| && si == k[i]
    requires AdoptedSoFar(n0, n1, par, k, i, dep, s) && UpBut(up, par, k) && AdoptedCycles(n0, n1, par, k, i, s)
    ensures AdoptedSoFar(n0, n, par, k, i + 1, dep, s) && AdoptedCycles(n0, n, par, k, i + 1, s)
  {
    n := MoveKid(n1, up, s, dep, si, i, k, par, rank, {s, dep});
    KidQueuesDep(n0, par, dep, s, si);
    OnlyQueuesTwice(n0, n1, n);
    AdoptedCycle(n0, n1, n, par, k, i, dep, s);
  }

  /**
   * The loop of nghttp2_stream_dep_insert and nghttp2_stream_dep_insert_subtree: gives the
   * children `k` of `dep` the parent `s` and moves those that are queued.
   */
  method AdoptKids(l0: Links, n0: Nodes, first: Option<Id>, dep: Id, s: Id,
                   ghost k: seq<Id>, ghost par: Parents, ghost rank: map<Id, nat>) returns (l: Links, n: Nodes)
    requires first == Head(k) && Chain(l0, k) && l0.Keys == par.Keys && UpBut(ParentsOf(l0), par, k)
    requires Movable(n0, par, rank, k, dep, s) && dep != s && Scheduled(n0, par, {s})
    ensures Adopted(l0, l, k, s) && AdoptedSoFar(n0, n, par, k, |k|, dep, s) && AdoptedCycles(n0, n, par, k, |k|, s)
  {
    var x := first;
    l, n := l0, n0;
    ghost var i := 0;
    NoneAdopted(n0, par, k, dep, s);
    while x.Some?
      invariant 0 <= i <= |k| && x == (if i < |k| then Some(k[i]) else None) && Adopted(l0, l, k[..i], s)
      invariant AdoptedSoFar(n0, n, par, k, i, dep, s) && AdoptedCycles(n0, n, par, k, i, s)
      decreases |k| - i
    {
      var si := x.value;
      AdoptedUp(l0, l, k, i, s, par);
      l := l[si := l[si].(depPrev := Some(s))];
      n := AdoptKid(n0, n, ParentsOf(l), dep, s, si, i, k, par, rank);
      x := l[si].sibNext;
      i := i + 1;
    }
    AllAdopted(l0, l, k, s);
  }

  lemma AllAdopted(l: Links, m: Links, k: seq<Id>, s: Id)
    requires Adopted(l, m, k[..|k|], s)
    ensures Adopted(l, m, k, s)
  {
    assert k[..|k|] == k;
  }

  lemma NoneAdopted(n: Nodes, par: Parents, k: seq<Id>, dep: Id, s: Id)
    requires Scheduled(n, par, {s}) && dep in n && s in n
    ensures AdoptedSoFar(n, n, par, k, 0, dep, s) && AdoptedCycles(n, n, par, k, 0, s)
  {
    assert k[..0] == [] && Moved(par, [], s) == par;
    NothingSettles(n, par);
    WiderExemption(n, par, {s}, {s, dep});
  }

  lemma AdoptedUp(l: Links, m: Links, k: seq<Id>, i: nat, s: Id, par: Parents)
    requires i < |k| && Chain(l, k) && Adopted(l, m, k[..i], s) && l.Keys == par.Keys && UpBut(ParentsOf(l), par, k)
    ensures k[i] in m && m[k[i]].sibNext == Behind(k, i)
    ensures
      var r := m[k[i] := m[k[i]].(depPrev := Some(s))];
      Adopted(l, r, k[..i + 1], s) && UpBut(ParentsOf(r), par, k)
  {
    AdoptNext(l, m, k, i, s);
    forall x | x in par && x !in k ensures x !in k[..i] {}
  }

  lemma KidQueuesDep(n: Nodes, par: Parents, dep: Id, s: Id, si: Id)
    requires Scheduled(n, par, {s}) && dep in n && si in n && par[si] == Some(dep) && dep != s
    ensures n[si].queued && par[dep].Some? ==> n[dep].queued
  {
    assert InParentsQueue(n, par, si) && QueuedIffActive(n, par, dep);
  }

  /** Queues the stream that adopted the children of `dep`, if it has something to send. */
  method QueueAdopter(n1: Nodes, up: Parents, dep: Id, s: Id, ghost par: Parents, ghost rank: map<Id, nat>)
    returns (n: Nodes)
    requires Scheduled(n1, par, {s, dep}) && Ranked(par, rank) && s in n1 && dep in n1 && par[s] == Some(dep)
    requires TrueUpward(up, par, rank, Some(dep)) && (n1[s].queued ==> SubtreeActive(n1[s]))
    requires QueuedIffActive(n1, par, dep) || SomeMoved(n1, par, dep, s)
    ensures Scheduled(n, par, {}) && OnlyQueues(n1, n) && QueuedStay(n1, n) && Joins(n1, n, par)
  {
    n := n1;
    NoneJoins(n1, par);
    ghost var ex := if QueuedIffActive(n1, par, dep) then {} else {dep};
    Settled(n, par, {s, dep}, ex + {s});
    if SubtreeActive(n[s]) {
      n := ObqPush(n, up, Some(dep), s, par, rank, ex);
      assert InParentsQueue(n, par, s);
      Settled(n, par, ex, {});
    } else {
      Settled(n, par, ex + {s}, {});
    }
  }

  function InsertWeight(n: Nodes, dep: Id, s: Id): Nodes
    requires dep in n && s in n && dep != s
  {
    n[s := n[s].(sumDepWeight := n[s].sumDepWeight + n[dep].sumDepWeight)][dep := n[dep].(sumDepWeight := n[s].weight)]
  }

  lemma InsertedWeights(n: Nodes, kids: Kids, dep: Id, s: Id)
    requires Weighted(n, kids) && dep in n && s in n && dep != s
    ensures Weighted(InsertWeight(n, dep, s), InsertedAbove(kids, dep, s))
  {
    var m, after := InsertWeight(n, dep, s), InsertedAbove(kids, dep, s);
    forall p | p in m ensures SumOk(m, after, p) {
      assert SumOk(n, kids, p) && SumOk(n, kids, dep) && SumOk(n, kids, s);
      SumSame(n, m, kids[p]);
      SumSame(n, m, kids[dep]);
      if p == s {
        SumConcat(m, kids[s], kids[dep]);
      } else if p == dep {
        SumOne(m, s);
      }
    }
  }

  /** The ranks of `Lifted` serve every state of an insertion. */
  lemma InsertRanks(l: Links, n: Nodes, kids: Kids, rank: map<Id, nat>, dep: Id, s: Id)
    requires MayJoin(l, n, kids, rank, dep, s)
    ensures
      var par, k, r := ParentsOf(l), kids[dep], Lifted(ParentsOf(l), rank, dep, s);
      && dep != s && Ranked(ParentsInserted(par, k, dep, s), r)
      && Movable(n, par, r, k, dep, s) && Movable(n, par[s := Some(dep)], r, k, dep, s)
  {
    var par, k, r := ParentsOf(l), kids[dep], Lifted(ParentsOf(l), rank, dep, s);
    BelowStep(par, rank, dep, s);
    KidsByParent(l, kids, dep);
    assert ChildList(l, dep, k);
    LiftedIsRanked(par, rank, par, dep, s);
    LiftedIsRanked(par, rank, par[s := Some(dep)], dep, s);
    LiftedIsRanked(par, rank, ParentsInserted(par, k, dep, s), dep, s);
    forall x | x in k ensures x in par && par[x] == Some(dep) && x != s && x != dep && r[s] < r[x] {
      assert ParentsInserted(par, k, dep, s)[x] == Some(s);
    }
  }

  /** The queues before the children of `dep` are moved. */
  lemma InsertReady(n: Nodes, par: Parents, dep: Id, s: Id)
    requires Scheduled(n, par, {}) && dep in n && s in n && dep != s && par[s].None?
    ensures
      var m := InsertWeight(n, dep, s);
      Scheduled(m, par, {s}) && Scheduled(m, par[s := Some(dep)], {s}) && !m[s].queued
  {
    var m := InsertWeight(n, dep, s);
    LooseIsUnqueued(n, par, {}, s);
    MeasuresMayChange(n, m, par, {});
    WiderExemption(m, par, {}, {s});
    RelinkKeeps(m, par, s, Some(dep), {});
  }

  /** The queues after the children of `dep` were moved below `s`, which is now below `dep`. */
  lemma AdoptedQueues(n0: Nodes, n: Nodes, par: Parents, k: seq<Id>, dep: Id, s: Id)
    requires dep in n0 && s in n0 && dep != s && dep !in k && s !in k && (par.Keys == n0.Keys)
    requires AdoptedSoFar(n0, n, par, k, |k|, dep, s) && Scheduled(n0, par, {s}) && !n0[s].queued
    requires par[s].None? || par[s] == Some(dep)
    ensures
      var now := ParentsInserted(par, k, dep, s);
      && Scheduled(n, now, {s, dep}) && (n[s].queued ==> SubtreeActive(n[s]))
      && (QueuedIffActive(n, now, dep) || SomeMoved(n, now, dep, s)) && (par[s].None? ==> !n[s].queued)
  {
    var moved, now := Moved(par, k, s), ParentsInserted(par, k, dep, s);
    assert k[..|k|] == k;
    assert QueuedIffActive(n0, par, dep);
    assert now == moved[s := Some(dep)];
    if par[s].None? {
      LooseIsUnqueued(n, moved, {s, dep}, s);
      RelinkKeeps(n, moved, s, Some(dep), {s, dep});
      assert {s, dep} + {s} == {s, dep};
    } else {
      assert now == moved;
    }
  }

  lemma UpwardFromDep(up: Parents, par: Parents, k: seq<Id>, dep: Id, s: Id, rank: map<Id, nat>)
    requires Ranked(ParentsInserted(par, k, dep, s), rank) && s in par && dep in par && s !in k && dep != s && dep !in k
    requires par.Keys <= up.Keys && forall x | x in par && x != s && x !in k :: up[x] == par[x]
    ensures TrueUpward(up, ParentsInserted(par, k, dep, s), rank, Some(dep))
  {
    var now := ParentsInserted(par, k, dep, s);
    assert now[s] == Some(dep);
    assert forall x | x in k && x in par :: now[x] == Some(s);
  }

  /** The parents after `s` left the tree: its children have the parent it had. */
  function LeftOut(par: Parents, s: Id): Parents
    requires s in par
  {
    map x | x in par :: if x == s then None else if par[x] == Some(s) then par[s] else par[x]
  }

  /** The parents after `s` came below `dep`; if exclusively, all other children of `dep` are below `s`. */
  function Placed(par: Parents, s: Id, dep: Id, exclusive: bool): Parents
  {
    map x | x in par :: if x == s then Some(dep) else if exclusive && par[x] == Some(dep) then Some(s) else par[x]
  }

  lemma InsertedIsPlaced(l: Links, kids: Kids, dep: Id, s: Id)
    requires Shaped(l, kids) && dep in l
    ensures ParentsInserted(ParentsOf(l), kids[dep], dep, s) == Placed(ParentsOf(l), s, dep, true)
  {
    KidsByParent(l, kids, dep);
  }

  lemma SplicedIsLeftOut(l: Links, kids: Kids, p: Id, s: Id)
    requires Shaped(l, kids) && s in l && l[s].depPrev == Some(p)
    ensures ParentsSpliced(ParentsOf(l), p, s, kids[s]) == LeftOut(ParentsOf(l), s)
  {
    KidsByParent(l, kids, s);
  }

  /** Everything after an insertion. */
  lemma InsertDone(l0: Links, l: Links, n0: Nodes, n: Nodes, kids: Kids, rank: map<Id, nat>, dep: Id, s: Id)
    requires MayJoin(l0, n0, kids, rank, dep, s) && dep != s && InsertedLinks(l0, l, dep, s, kids[s], kids[dep])
    requires Scheduled(n, ParentsInserted(ParentsOf(l0), kids[dep], dep, s), {}) && OnlyQueues(InsertWeight(n0, dep, s), n)
    requires Ranked(ParentsInserted(ParentsOf(l0), kids[dep], dep, s), Lifted(ParentsOf(l0), rank, dep, s))
    ensures Forest(l, n, InsertedAbove(kids, dep, s), Lifted(ParentsOf(l0), rank, dep, s))
    ensures ParentsOf(l) == Placed(ParentsOf(l0), s, dep, true) == ParentsInserted(ParentsOf(l0), kids[dep], dep, s)
  {
    InsertShape(l0, l, kids, dep, s);
    InsertParentMap(l0, l, kids, dep, s);
    InsertedIsPlaced(l0, kids, dep, s);
    InsertedWeights(n0, kids, dep, s);
    WeightsUntouched(InsertWeight(n0, dep, s), n, InsertedAbove(kids, dep, s));
    KidsByParent(l0, kids, dep);
  }

  /** Moves the children `k` of `dep` below `s`, which is or comes below `dep`, and queues `s` as needed. */
  method AdoptAndQueue(l0: Links, n0: Nodes, first: Option<Id>, dep: Id, s: Id,
                       ghost k: seq<Id>, ghost par: Parents, ghost rank: map<Id, nat>) returns (l: Links, n: Nodes)
    requires first == Head(k) && Chain(l0, k) && l0.Keys == par.Keys && UpBut(ParentsOf(l0), par, k)
    requires Movable(n0, par, rank, k, dep, s) && dep != s && Scheduled(n0, par, {s}) && !n0[s].queued
    requires (par[s].None? || par[s] == Some(dep)) && Ranked(ParentsInserted(par, k, dep, s), rank)
    ensures Adopted(l0, l, k, s) && Scheduled(n, ParentsInserted(par, k, dep, s), {}) && OnlyQueues(n0, n)
    ensures Settles(n0, n, par, ParentsInserted(par, k, dep, s))
  {
    l, n := AdoptKids(l0, n0, first, dep, s, k, par, rank);
    AdoptedQueues(n0, n, par, k, dep, s);
    UpwardFromDep(ParentsOf(l), par, k, dep, s, rank);
    ghost var before := n;
    n := QueueAdopter(n, ParentsOf(l), dep, s, ParentsInserted(par, k, dep, s), rank);
    OnlyQueuesTwice(n0, before, n);
    AdopterSettles(n0, before, n, par, k, dep, s);
  }

  lemma AdopterSettles(n0: Nodes, a: Nodes, n: Nodes, par: Parents, k: seq<Id>, dep: Id, s: Id)
    requires AdoptedCycles(n0, a, par, k, |k|, s) && s in par && s !in k && (par[s] == Some(dep) || (s in a ==> !a[s].queued))
    requires OnlyQueues(a, n) && QueuedStay(a, n) && Joins(a, n, ParentsInserted(par, k, dep, s))
    ensures Settles(n0, n, par, ParentsInserted(par, k, dep, s))
  {
    var moved, now := Moved(par, k, s), ParentsInserted(par, k, dep, s);
    assert k[..|k|] == k && now == moved[s := Some(dep)];
    if par[s] == Some(dep) {
      assert now == moved;
    } else {
      SettlesRelinked(n0, a, par, moved, s, Some(dep));
    }
    SettlesPush(n0, a, n, par, now);
  }

  /** The cycles after an insertion, from before the sums changed. */
  lemma InsertSettles(n0: Nodes, n: Nodes, par: Parents, was: Parents, now: Parents, dep: Id, s: Id)
    requires s in n0 && dep in n0 && dep != s && !n0[s].queued && (forall x | x in n0 :: n0[x].weight > 0)
    requires was == par || was == par[s := Some(dep)]
    requires Settles(InsertWeight(n0, dep, s), n, was, now)
    ensures Settles(n0, n, par, now)
  {
    SettlesFromBefore(n0, InsertWeight(n0, dep, s), n, was, now);
    forall x | x in n0 ensures SettledCycle(n0, n, par, now, x) { assert SettledCycle(n0, n, was, now, x); }
  }

  /** The sums of nghttp2_stream_dep_insert. */
  method InsertSums(n0: Nodes, dep: Id, s: Id, ghost kids: Kids) returns (n: Nodes)
    requires Weighted(n0, kids) && dep in n0 && s in n0 && dep != s && kids[s] == []
    ensures n == InsertWeight(n0, dep, s)
  {
    assert SumOk(n0, kids, s);
    n := n0[s := n0[s].(sumDepWeight := n0[dep].sumDepWeight)];
    n := n[dep := n[dep].(sumDepWeight := n[s].weight)];
  }

  /** The links of nghttp2_stream_dep_insert. */
  lemma InsertNewLinks(l: Links, a: Links, kids: Kids, dep: Id, s: Id)
    requires Shaped(l, kids) && dep in l && s in l && dep != s && l[s].depPrev.None? && kids[s] == []
    requires Adopted(l, a, kids[dep], s)
    ensures l[dep].depNext.Some? ==>
      var b := a[s := a[s].(depNext := a[dep].depNext)];
      var c := b[dep := b[dep].(depNext := Some(s))];
      InsertedLinks(l, c[s := c[s].(depPrev := Some(dep))], dep, s, kids[s], kids[dep])
    ensures l[dep].depNext.None? ==>
      var c := l[dep := l[dep].(depNext := Some(s))];
      InsertedLinks(l, c[s := c[s].(depPrev := Some(dep))], dep, s, kids[s], kids[dep])
  {
    FirstChild(l, kids, dep);
    FirstChild(l, kids, s);
    AdoptedThenInserted(l, a, a[s := a[s].(depNext := l[dep].depNext, depPrev := Some(dep))][dep := a[dep].(depNext := Some(s))],
                        kids, dep, s);
    KidsByParent(l, kids, dep);
    if l[dep].depNext.None? {
      assert a == l;
    }
  }

  lemma InsertedEitherWay(par: Parents, k: seq<Id>, dep: Id, s: Id)
    requires s in par
    ensures ParentsInserted(par[s := Some(dep)], k, dep, s) == ParentsInserted(par, k, dep, s)
    ensures k == [] ==> ParentsInserted(par, k, dep, s) == par[s := Some(dep)]
  {}

  /** nghttp2_stream_dep_insert, for a stream with no children and nothing to send. */
  method InsertNew(l0: Links, n0: Nodes, dep: Id, s: Id, ghost kids: Kids, ghost rank: map<Id, nat>)
    returns (l: Links, n: Nodes)
    requires MayJoin(l0, n0, kids, rank, dep, s) && kids[s] == [] && !SubtreeActive(n0[s])
    ensures dep != s && OnlyQueues(InsertWeight(n0, dep, s), n)
    ensures Forest(l, n, InsertedAbove(kids, dep, s), Lifted(ParentsOf(l0), rank, dep, s))
    ensures ParentsOf(l) == Placed(ParentsOf(l0), s, dep, true)
    ensures Settles(n0, n, ParentsOf(l0), ParentsOf(l))
  {
    ghost var par, k, r := ParentsOf(l0), kids[dep], Lifted(ParentsOf(l0), rank, dep, s);
    InsertRanks(l0, n0, kids, rank, dep, s);
    InsertReady(n0, par, dep, s);
    FirstChild(l0, kids, dep);
    l := l0;
    n := InsertSums(n0, dep, s, kids);
    if l0[dep].depNext.Some? {
      OwnChain(l0, kids, dep);
      l, n := AdoptAndQueue(l0, n, l0[dep].depNext, dep, s, k, par, r);
      InsertNewLinks(l0, l, kids, dep, s);
      l := l[s := l[s].(depNext := l[dep].depNext)];
    } else {
      InsertNewLinks(l0, l, kids, dep, s);
      OneSettled(n, par[s := Some(dep)], s, {});
      InsertedEitherWay(par, k, dep, s);
      NothingSettles(n, par);
      SettlesRelinked(n, n, par, par, s, Some(dep));
    }
    InsertSettles(n0, n, par, par, ParentsInserted(par, k, dep, s), dep, s);
    l := l[dep := l[dep].(depNext := Some(s))];
    l := l[s := l[s].(depPrev := Some(dep))];
    InsertDone(l0, l, n0, n, kids, rank, dep, s);
  }

  /** The links nghttp2_stream_dep_insert_subtree sets first. */
  method JoinLinks(l0: Links, dep: Id, s: Id, ghost kids: Kids) returns (l: Links)
    requires Shaped(l0, kids) && dep in l0 && s in l0 && dep != s && l0[s].depPrev.None?
    ensures l.Keys == l0.Keys && Chain(l, kids[dep]) && UpBut(ParentsOf(l), ParentsOf(l0)[s := Some(dep)], kids[dep])
    ensures l0[dep].depNext.Some? ==> Joined(l0, l, dep, s, kids[s], kids[dep])
    ensures l0[dep].depNext.None? ==> l == LinkDep(l0, dep, Some(s))
  {
    FirstChild(l0, kids, dep);
    if l0[dep].depNext.Some? {
      l := JoinKids(l0, dep, s, kids);
      JoinedChain(l0, l, kids, dep, s);
    } else {
      l := LinkDep(l0, dep, Some(s));
    }
  }

  lemma InsertSubtreeLinks(l: Links, j: Links, m: Links, kids: Kids, dep: Id, s: Id)
    requires Shaped(l, kids) && dep in l && s in l && dep != s && l[s].depPrev.None? && Adopted(j, m, kids[dep], s)
    requires l[dep].depNext.Some? ==> Joined(l, j, dep, s, kids[s], kids[dep])
    requires l[dep].depNext.None? ==> j == LinkDep(l, dep, Some(s))
    ensures InsertedLinks(l, m, dep, s, kids[s], kids[dep])
  {
    FirstChild(l, kids, dep);
    FirstChild(l, kids, s);
    if l[dep].depNext.Some? {
      JoinedThenAdopted(l, j, m, kids, dep, s);
    } else {
      assert m == j && kids[dep] == [] && Head(kids[dep]) == None;
      assert kids[s] == [] ==> l[s].depNext == None;
    }
  }

  /** nghttp2_stream_dep_insert_subtree. */
  method InsertSubtree(l0: Links, n0: Nodes, dep: Id, s: Id, ghost kids: Kids, ghost rank: map<Id, nat>)
    returns (l: Links, n: Nodes)
    requires MayJoin(l0, n0, kids, rank, dep, s)
    ensures dep != s && OnlyQueues(InsertWeight(n0, dep, s), n)
    ensures Forest(l, n, InsertedAbove(kids, dep, s), Lifted(ParentsOf(l0), rank, dep, s))
    ensures ParentsOf(l) == Placed(ParentsOf(l0), s, dep, true)
    ensures Settles(n0, n, ParentsOf(l0), ParentsOf(l))
  {
    ghost var par, k, r := ParentsOf(l0)[s := Some(dep)], kids[dep], Lifted(ParentsOf(l0), rank, dep, s);
    InsertRanks(l0, n0, kids, rank, dep, s);
    InsertReady(n0, ParentsOf(l0), dep, s);
    InsertedEitherWay(ParentsOf(l0), k, dep, s);
    FirstChild(l0, kids, dep);
    n := InsertWeight(n0, dep, s);
    l := JoinLinks(l0, dep, s, kids);
    ghost var joined := l;
    l, n := AdoptAndQueue(l, n, l0[dep].depNext, dep, s, k, par, r);
    InsertSettles(n0, n, ParentsOf(l0), par, ParentsInserted(ParentsOf(l0), k, dep, s), dep, s);
    InsertSubtreeLinks(l0, joined, l, kids, dep, s);
    InsertDone(l0, l, n0, n, kids, rank, dep, s);
  }

  // ----------------------------------------------------------------- sharing a weight

  /** The streams `k` with their share of the weight of `s`. */
  function Shared(n: Nodes, s: Id, k: seq<Id>): Nodes
    requires s in n && 1 <= n[s].weight <= 256 && forall x | x in k && x in n :: 0 < n[x].weight <= n[s].sumDepWeight
  {
    map x | x in n :: if x in k then n[x].(weight := DistributedWeight(n[s], n[x].weight)) else n[x]
  }

  lemma SharedNext(n: Nodes, s: Id, k: seq<Id>, i: nat)
    requires s in n && 1 <= n[s].weight <= 256 && forall x | x in k && x in n :: 0 < n[x].weight <= n[s].sumDepWeight
    requires i < |k| && k[i] in n && k[i] !in k[..i]
    ensures
      var m := Shared(n, s, k[..i]);
      Shared(n, s, k[..i + 1]) == m[k[i] := m[k[i]].(weight := DistributedWeight(n[s], n[k[i]].weight))]
  {
    assert k[..i + 1] == k[..i] + [k[i]];
  }

  /** The weights of the children of `s` are ready to be replaced by shares of its own. */
  predicate Sharable(n: Nodes, s: Id, k: seq<Id>)
  {
    s in n && 1 <= n[s].weight <= 256 && s !in k && forall x | x in k :: x in n && 0 < n[x].weight <= n[s].sumDepWeight
  }

  lemma KidsAreSharable(n: Nodes, kids: Kids, s: Id)
    requires Weighted(n, kids) && s in n && s !in kids[s]
    ensures Sharable(n, s, kids[s])
  {
    assert SumOk(n, kids, s);
    forall x | x in kids[s] ensures x in n && 0 < n[x].weight <= n[s].sumDepWeight { KidWeighs(n, kids, s, x); }
  }

  /** The first `i` of the children `k` of `s` have their share and are moved below `p`. */
  ghost predicate SharedSoFar(n0: Nodes, n: Nodes, par: Parents, k: seq<Id>, i: nat, p: Id, s: Id)
    requires Sharable(n0, s, k) && i <= |k|
  {
    Scheduled(n, Moved(par, k[..i], p), {s}) && OnlyQueues(Shared(n0, s, k[..i]), n)
  }

  /** And their cycles; the others are queued as before. */
  ghost predicate SharedCycles(n0: Nodes, n: Nodes, par: Parents, k: seq<Id>, i: nat, p: Id)
    requires i <= |k|
  {
    && Settles(n0, n, par, Moved(par, k[..i], p)) && StillQueued(n0, n)
    && forall j | i <= j < |k| && k[j] in n0 :: n[k[j]].queued == n0[k[j]].queued && n[k[j]].cycle == n0[k[j]].cycle
  }

  lemma SharedCycle(n0: Nodes, a: Nodes, weight: nat, b: Nodes, par: Parents, rank: map<Id, nat>, k: seq<Id>, i: nat, p: Id, s: Id)
    requires Movable(n0, par, rank, k, s, p) && i < |k| && SharedCycles(n0, a, par, k, i, p) && p != s
    requires k[i] in a && weight > 0 && forall x | x in a :: a[x].weight > 0
    requires
      var w := a[k[i] := a[k[i]].(weight := weight)];
      && OnlyQueues(w, b) && MovedTo(w, b, Moved(par, k[..i], p), p, k[i]) && b[k[i]].queued == w[k[i]].queued
      && (forall x | x in w && x != k[i] && w[x].queued :: b[x].queued)
      && (forall x | x in w && x != k[i] && x != s && rank[x] > rank[p] :: b[x] == w[x])
    ensures SharedCycles(n0, b, par, k, i + 1, p)
  {
    var w := a[k[i] := a[k[i]].(weight := weight)];
    assert k[i] !in k[..i];
    SettlesMeasured(n0, a, w, par, Moved(par, k[..i], p), k[i]);
    MovedNext(par, k, i, p);
    SettlesMove(n0, w, b, par, Moved(par, k[..i], p), p, k[i]);
    forall j | i + 1 <= j < |k| ensures b[k[j]].queued == n0[k[j]].queued && b[k[j]].cycle == n0[k[j]].cycle {
      assert k[j] in k && k[j] != k[i] && b[k[j]] == w[k[j]];
    }
  }

  lemma ShareGivenTo(n: Nodes, m: Nodes, s: Id, k: seq<Id>, i: nat)
    requires Sharable(n, s, k) && i < |k| && k[i] !in k[..i] && OnlyQueues(Shared(n, s, k[..i]), m)
    requires forall x | x in m :: m[x].weight > 0
    ensures m[s].weight == n[s].weight && m[s].sumDepWeight == n[s].sumDepWeight && m[k[i]].weight == n[k[i]].weight
    ensures
      var r := m[k[i] := m[k[i]].(weight := DistributedWeight(m[s], m[k[i]].weight))];
      OnlyMeasures(m, r) && OnlyQueues(Shared(n, s, k[..i + 1]), r)
  {
    SharedNext(n, s, k, i);
    assert s !in k[..i];
    OneWeight(Shared(n, s, k[..i]), m, k[i], DistributedWeight(m[s], m[k[i]].weight));
  }

  lemma OneWeight(n: Nodes, m: Nodes, x: Id, w: nat)
    requires OnlyQueues(n, m) && x in n && w > 0 && forall y | y in m :: m[y].weight > 0
    ensures
      var r := m[x := m[x].(weight := w)];
      OnlyQueues(n[x := n[x].(weight := w)], r) && OnlyMeasures(m, r)
  {}

  lemma SharePrepared(n0: Nodes, n: Nodes, par: Parents, k: seq<Id>, i: nat, p: Id, s: Id)
    requires Sharable(n0, s, k) && i < |k| && Distinct(k) && SharedSoFar(n0, n, par, k, i, p, s)
    ensures s in n && k[i] in n && 1 <= n[s].weight <= 256 && 0 < n[k[i]].weight <= n[s].sumDepWeight
    ensures
      var m := n[k[i] := n[k[i]].(weight := DistributedWeight(n[s], n[k[i]].weight))];
      Scheduled(m, Moved(par, k[..i], p), {s}) && OnlyQueues(Shared(n0, s, k[..i + 1]), m)
  {
    assert k[i] !in k[..i];
    ShareGivenTo(n0, n, s, k, i);
    MeasuresMayChange(n, n[k[i] := n[k[i]].(weight := DistributedWeight(n[s], n[k[i]].weight))], Moved(par, k[..i], p), {s});
  }

  /** One round of the loop of nghttp2_stream_dep_remove. */
  method ShareKid(ghost n0: Nodes, n1: Nodes, up: Parents, p: Id, s: Id, si: Id, ghost i: nat,
                  ghost k: seq<Id>, ghost par: Parents, ghost rank: map<Id, nat>) returns (n: Nodes)
    requires Movable(n0, par, rank, k, s, p) && Sharable(n0, s, k) && i < |k| && si == k[i] && UpBut(up, par, k)
    requires SharedSoFar(n0, n1, par, k, i, p, s) && SharedCycles(n0, n1, par, k, i, p) && p != s
    ensures SharedSoFar(n0, n, par, k, i + 1, p, s) && SharedCycles(n0, n, par, k, i + 1, p)
  {
    SharePrepared(n0, n1, par, k, i, p, s);
    n := n1[si := n1[si].(weight := DistributedWeight(n1[s], n1[si].weight))];
    ghost var before := n;
    n := MoveKid(n, up, p, s, si, i, k, par, rank, {s});
    OnlyQueuesTwice(Shared(n0, s, k[..i + 1]), before, n);
    SharedCycle(n0, n1, before[si].weight, n, par, rank, k, i, p, s);
  }

  /** The shares given out so far. */
  function Shares(n: Nodes, s: Id, k: seq<Id>, i: nat): nat
    requires Sharable(n, s, k) && i <= |k|
  {
    SumWeights(Shared(n, s, k[..i]), k[..i])
  }

  lemma SharesNext(n: Nodes, s: Id, k: seq<Id>, i: nat)
    requires Sharable(n, s, k) && i < |k| && k[i] !in k[..i]
    ensures Shares(n, s, k, i + 1) == Shares(n, s, k, i) + DistributedWeight(n[s], n[k[i]].weight)
  {
    SharedNext(n, s, k, i);
    assert k[..i + 1][..i] == k[..i];
    SumSame(Shared(n, s, k[..i]), Shared(n, s, k[..i + 1]), k[..i]);
  }

  /**
   * The loop of nghttp2_stream_dep_remove: gives the children `k` of `s` their share of its
   * weight and moves those that are queued to the queue of `p`.
   */
  method ShareOut(l: Links, n0: Nodes, p: Id, s: Id, ghost k: seq<Id>, ghost par: Parents, ghost rank: map<Id, nat>)
    returns (n: Nodes, delta: int)
    requires s in l && l[s].depNext == Head(k) && Chain(l, k) && l.Keys == par.Keys && UpBut(ParentsOf(l), par, k)
    requires Movable(n0, par, rank, k, s, p) && Sharable(n0, s, k) && Scheduled(n0, par, {}) && p != s
    ensures Scheduled(n, Moved(par, k, p), {s}) && OnlyQueues(Shared(n0, s, k), n) && Settles(n0, n, par, Moved(par, k, p))
    ensures delta == SumWeights(Shared(n0, s, k), k) as int - n0[s].weight
  {
    var x := l[s].depNext;
    n := n0;
    ghost var i := 0;
    NoneShared(n0, par, k, p, s);
    delta := 0 - n[s].weight;
    while x.Some?
      invariant 0 <= i <= |k| && x == (if i < |k| then Some(k[i]) else None)
      invariant SharedSoFar(n0, n, par, k, i, p, s) && delta == Shares(n0, s, k, i) as int - n0[s].weight
      invariant SharedCycles(n0, n, par, k, i, p)
      decreases |k| - i
    {
      var si := x.value;
      assert si !in k[..i];
      SharesNext(n0, s, k, i);
      n := ShareKid(n0, n, ParentsOf(l), p, s, si, i, k, par, rank);
      ShareIsGiven(n0, n, par, k, i, p, s);
      delta := delta + n[si].weight;
      x := l[si].sibNext;
      i := i + 1;
    }
    AllShared(n0, n, par, k, p, s);
  }

  lemma NoneShared(n: Nodes, par: Parents, k: seq<Id>, p: Id, s: Id)
    requires Sharable(n, s, k) && Scheduled(n, par, {})
    ensures SharedSoFar(n, n, par, k, 0, p, s) && Shares(n, s, k, 0) == 0 && SharedCycles(n, n, par, k, 0, p)
  {
    assert k[..0] == [] && Moved(par, [], p) == par && Shared(n, s, []) == n;
    NothingSettles(n, par);
    WiderExemption(n, par, {}, {s});
  }

  lemma ShareIsGiven(n0: Nodes, n: Nodes, par: Parents, k: seq<Id>, i: nat, p: Id, s: Id)
    requires Sharable(n0, s, k) && i < |k| && SharedSoFar(n0, n, par, k, i + 1, p, s)
    ensures k[i] in n && n[k[i]].weight == DistributedWeight(n0[s], n0[k[i]].weight)
  {
    assert k[i] in k[..i + 1];
  }

  /** Dividing a weight among all children keeps it, but for at most one for each of them. */
  lemma WeightIsShared(n: Nodes, kids: Kids, s: Id)
    requires Weighted(n, kids) && s in n && kids[s] != []
    ensures forall x | x in kids[s] :: x in n && 0 < n[x].weight <= n[s].sumDepWeight
    ensures
      var total := SumWeights(Shared(n, s, kids[s]), kids[s]);
      total as int - |kids[s]| <= n[s].weight <= total + |kids[s]|
  {
    var k, w, sum := kids[s], n[s].weight, n[s].sumDepWeight;
    assert SumOk(n, kids, s);
    forall x | x in k ensures x in n && 0 < n[x].weight <= sum { KidWeighs(n, kids, s, x); }
    assert k[0] in k;
    var m := Shared(n, s, k);
    forall x | x in k ensures m[x].weight == Max(1, w * n[x].weight / sum) {}
    var total := SumWeights(m, k);
    SharesAddUp(n, m, k, w, sum);
    WithinCount(sum, total, w, |k|);
  }

  lemma WithinCount(sum: nat, total: nat, w: nat, c: nat)
    requires sum > 0 && 0 - sum * c <= sum * total - w * sum <= sum * c
    ensures total as int - c <= w <= total + c
  {
    Distribute(sum, total, 0 - w);
    Distribute(sum, w, 0 - total);
    Cancel(sum, total - w, c);
    Cancel(sum, w - total, c);
  }

  lemma {:induction false} SharesAddUp(n: Nodes, m: Nodes, k: seq<Id>, w: nat, sum: nat)
    requires sum > 0 && forall x | x in k :: x in n && x in m && m[x].weight == Max(1, w * n[x].weight / sum)
    ensures 0 - sum * |k| <= sum * SumWeights(m, k) - w * SumWeights(n, k) <= sum * |k|
    decreases |k|
  {
    if k != [] {
      var last, init := k[|k| - 1], k[..|k| - 1];
      SharesAddUp(n, m, init, w, sum);
      ShareBounds(w, n[last].weight, sum);
      Distribute(sum, SumWeights(m, init), m[last].weight);
      Distribute(w, SumWeights(n, init), n[last].weight);
      Distribute(sum, |init|, 1);
    }
  }

  lemma ShareBounds(w: nat, x: nat, sum: nat)
    requires sum > 0
    ensures 0 - sum <= sum * Max(1, w * x / sum) - w * x <= sum
  {
    var a := w * x;
    assert a == sum * (a / sum) + a % sum;
    MultipleIsLarge(a / sum, sum);
  }

  lemma Distribute(a: int, b: int, c: int)
    ensures a * (b + c) == a * b + a * c
  {}

  lemma Cancel(a: nat, b: int, c: int)
    requires a > 0
    ensures a * b <= a * c ==> b <= c
  {
    MultipleIsLarge(b - c, a);
    Distribute(a, b, -c);
  }

  // ------------------------------------------------------------------ removing a stream

  /** Only the schedule differs: queues, their members and cycles. */
  predicate OnlySchedule(n: Nodes, m: Nodes)
  {
    m.Keys == n.Keys &&
    forall x | x in n ::
      m[x] == n[x].(queued := m[x].queued, cycle := m[x].cycle, lastCycle := m[x].lastCycle, obq := m[x].obq)
  }

  /** Weights and sums once the children `k` of `s` took its place below `p`. */
  function Reshared(n: Nodes, p: Id, s: Id, k: seq<Id>): Nodes
    requires Sharable(n, s, k) && p in n
  {
    WithSum(Summed(n, p, s, k), s, 0)
  }

  lemma ResharedWeights(n: Nodes, kids: Kids, p: Id, s: Id)
    requires Weighted(n, kids) && p in n && s in n && p != s && s in kids[p] && Sharable(n, s, kids[s]) && p !in kids[s]
    requires forall q, x | q in n && q != s && x in kids[q] :: x !in kids[s]
    ensures Weighted(Reshared(n, p, s, kids[s]), TakenOutKids(kids, p, s, true))
  {
    var m, k, after := Reshared(n, p, s, kids[s]), kids[s], TakenOutKids(kids, p, s, true);
    SumSame(Shared(n, s, k), m, k);
    forall q | q in m ensures SumOk(m, after, q) {
      assert SumOk(n, kids, q);
      if q != s { SumSame(n, m, kids[q]); }
      if q == p { SumSpliced(m, kids[p], IndexOf(kids[p], s), k); }
    }
  }

  lemma RemoveFacts(l: Links, n: Nodes, kids: Kids, rank: map<Id, nat>, p: Id, s: Id)
    requires Forest(l, n, kids, rank) && s in l && l[s].depPrev == Some(p)
    ensures
      var k := kids[s];
      && p in l && p != s && s in kids[p] && s != Root && Sharable(n, s, k) && p !in k && Root !in k
      && Movable(n, ParentsOf(l), rank, k, s, p) && Chain(l, k) && l[s].depNext == Head(k)
  {
    ParentFacts(l, n, kids, rank, p, s);
    KidsFacts(l, kids, p, s);
    FirstChild(l, kids, s);
    KidsAreSharable(n, kids, s);
    assert ChildList(l, s, kids[s]);
  }

  lemma KidsOfOthers(l: Links, kids: Kids, s: Id)
    requires Shaped(l, kids) && s in l
    ensures forall q, x | q in l && q != s && x in kids[q] :: x !in kids[s]
  {
    forall q, x | q in l && q != s && x in kids[q] ensures x !in kids[s] { KidsApart(l, kids, q, s); }
  }

  lemma SplicedIsRanked(n: Nodes, par: Parents, rank: map<Id, nat>, k: seq<Id>, s: Id, p: Id)
    requires Movable(n, par, rank, k, s, p)
    ensures Ranked(ParentsSpliced(par, p, s, k), rank) && ParentsSpliced(par, p, s, k) == Moved(par, k, p)[s := None]
  {}

  function WithSum(n: Nodes, x: Id, sum: int): Nodes
    requires x in n
  {
    n[x := n[x].(sumDepWeight := sum)]
  }

  lemma SumMayChange(n: Nodes, x: Id, sum: int, par: Parents, ex: set<Id>)
    requires Scheduled(n, par, ex) && x in n
    ensures Scheduled(WithSum(n, x, sum), par, ex)
  {
    MeasuresMayChange(n, WithSum(n, x, sum), par, ex);
  }

  lemma SumFrame(a: Nodes, b: Nodes, p: Id, sum: int)
    requires OnlyQueues(a, b) && p in a
    ensures OnlyQueues(WithSum(a, p, sum), WithSum(b, p, sum))
  {}

  lemma SumSettles(n0: Nodes, n: Nodes, x: Id, sum: int, was: Parents, par: Parents)
    requires Settles(n0, n, was, par) && x in n && forall y | y in n :: n[y].weight > 0
    ensures Settles(n0, WithSum(n, x, sum), was, par)
  {
    SettlesSummed(n0, n, WithSum(n, x, sum), was, par);
  }

  lemma ResharedFrame(a: Nodes, b: Nodes, c: Nodes, s: Id)
    requires OnlyQueues(a, b) && s in a && OnlyUnqueued(b, c)
    ensures OnlySchedule(WithSum(a, s, 0), WithSum(c, s, 0))
  {}

  /** Weights and sums once the children `k` of `s` have their shares, but for the sum of `s` itself. */
  function Summed(n: Nodes, p: Id, s: Id, k: seq<Id>): Nodes
    requires Sharable(n, s, k) && p in n
  {
    var m := Shared(n, s, k);
    WithSum(m, p, m[p].sumDepWeight + SumWeights(m, k) - n[s].weight)
  }

  lemma SharedThenSummed(n0: Nodes, n: Nodes, p: Id, s: Id, k: seq<Id>, sum: int)
    requires Sharable(n0, s, k) && p in n0 && OnlyQueues(Shared(n0, s, k), n)
    requires sum == n[p].sumDepWeight + (SumWeights(Shared(n0, s, k), k) as int - n0[s].weight)
    ensures OnlyQueues(Summed(n0, p, s, k), WithSum(n, p, sum))
  {
    assert Summed(n0, p, s, k) == WithSum(Shared(n0, s, k), p, sum);
    SumFrame(Shared(n0, s, k), n, p, sum);
  }

  method ShareAndSum(l: Links, n0: Nodes, p: Id, s: Id, ghost k: seq<Id>, ghost par: Parents, ghost rank: map<Id, nat>)
    returns (n: Nodes)
    requires s in l && l[s].depNext == Head(k) && Chain(l, k) && ParentsOf(l) == par
    requires Movable(n0, par, rank, k, s, p) && Sharable(n0, s, k) && Scheduled(n0, par, {}) && p != s
    ensures Scheduled(n, Moved(par, k, p), {s}) && OnlyQueues(Summed(n0, p, s, k), n) && Settles(n0, n, par, Moved(par, k, p))
  {
    var n1, delta := ShareOut(l, n0, p, s, k, par, rank);
    var sum := n1[p].sumDepWeight + delta;
    SharedThenSummed(n0, n1, p, s, k, sum);
    SumMayChange(n1, p, sum, Moved(par, k, p), {s});
    n := WithSum(n1, p, sum);
    SumSettles(n0, n1, p, sum, par, Moved(par, k, p));
  }

  /** The queues of nghttp2_stream_dep_remove. */
  method ReshareQueues(l: Links, n0: Nodes, p: Id, s: Id, ghost k: seq<Id>, ghost par: Parents, ghost rank: map<Id, nat>)
    returns (n: Nodes)
    requires s in l && l[s].depNext == Head(k) && Chain(l, k) && ParentsOf(l) == par && p != s && par[s] == Some(p)
    requires Movable(n0, par, rank, k, s, p) && Sharable(n0, s, k) && Scheduled(n0, par, {})
    ensures Scheduled(n, Moved(par, k, p)[s := None], {}) && OnlySchedule(Reshared(n0, p, s, k), n)
    ensures Settles(n0, n, par, Moved(par, k, p)[s := None])
  {
    var n1 := ShareAndSum(l, n0, p, s, k, par, rank);
    ghost var moved := Moved(par, k, p);
    AllMovedUpward(par, n0, rank, k, s, p);
    n := Unqueue(n1, ParentsOf(l), s, moved, rank);
    ResharedFrame(Summed(n0, p, s, k), n1, n, s);
    SettlesLeave(n0, n1, n, par, moved);
    SettlesRelinked(n0, n, par, moved, s, None);
    SumSettles(n0, n, s, 0, par, moved[s := None]);
    SumMayChange(n, s, 0, moved[s := None], {});
    n := WithSum(n, s, 0);
  }

  lemma AllMovedUpward(par: Parents, n: Nodes, rank: map<Id, nat>, k: seq<Id>, src: Id, to: Id)
    requires Movable(n, par, rank, k, src, to) && par[src] == Some(to)
    ensures Moved(par, k, to)[src] == Some(to) && Ranked(Moved(par, k, to), rank)
    ensures TrueUpward(par, Moved(par, k, to), rank, Some(to))
  {
    assert k[..|k|] == k;
    UpwardIsTrue(par, n, par, rank, k, src, to, |k|);
  }

  lemma AllShared(n0: Nodes, n: Nodes, par: Parents, k: seq<Id>, p: Id, s: Id)
    requires Sharable(n0, s, k) && SharedSoFar(n0, n, par, k, |k|, p, s) && SharedCycles(n0, n, par, k, |k|, p)
    ensures Scheduled(n, Moved(par, k, p), {s}) && OnlyQueues(Shared(n0, s, k), n) && Settles(n0, n, par, Moved(par, k, p))
    ensures Shares(n0, s, k, |k|) == SumWeights(Shared(n0, s, k), k)
  {
    assert k[..|k|] == k;
  }

  /** nghttp2_stream_dep_remove. */
  method RemoveStream(l0: Links, n0: Nodes, s: Id, ghost kids: Kids, ghost rank: map<Id, nat>) returns (l: Links, n: Nodes)
    requires Forest(l0, n0, kids, rank) && s in l0 && l0[s].depPrev.Some?
    ensures
      var p, k := l0[s].depPrev.value, kids[s];
      && p in n0 && s in kids[p] && Sharable(n0, s, k) && OnlySchedule(Reshared(n0, p, s, k), n)
      && Forest(l, n, TakenOutKids(kids, p, s, true), rank) && ParentsOf(l) == LeftOut(ParentsOf(l0), s)
    ensures Settles(n0, n, ParentsOf(l0), ParentsOf(l))
  {
    var p := l0[s].depPrev.value;
    RemoveFacts(l0, n0, kids, rank, p, s);
    KidsOfOthers(l0, kids, s);
    SplicedIsRanked(n0, ParentsOf(l0), rank, kids[s], s, p);
    n := ReshareQueues(l0, n0, p, s, kids[s], ParentsOf(l0), rank);
    l := TakeOut(l0, s, p, kids);
    SpliceShape(l0, l, kids, p, s, kids[s], true);
    SpliceParentMap(l0, l, p, s, kids[s], true);
    SplicedIsLeftOut(l0, kids, p, s);
    ResharedWeights(n0, kids, p, s);
    WeightsUntouched(Reshared(n0, p, s, kids[s]), n, TakenOutKids(kids, p, s, true));
  }

  // ------------------------------------------------------------------- new and old streams

  /** nghttp2_stream_init. */
  function NewNode(weight: nat): Node { Node(weight, 0, false, {}, false, 0, 0, 0, []) }

  /** `s` is no stream, or one without links. */
  predicate Free(l: Links, s: Id) { s in l ==> l[s] == Unlinked }

  lemma FreeHasNoKids(l: Links, kids: Kids, s: Id)
    requires Shaped(l, kids) && Free(l, s)
    ensures s in l ==> kids[s] == []
    ensures forall x | x in l :: l[x].depPrev != Some(s)
  {
    if s in l { FirstChild(l, kids, s); }
    forall x | x in l ensures l[x].depPrev != Some(s) { assert KnownToParent(l, kids, x); }
  }

  lemma FreshShape(l: Links, kids: Kids, s: Id)
    requires Shaped(l, kids) && Free(l, s)
    ensures Shaped(l[s := Unlinked], kids[s := []]) && ParentsOf(l[s := Unlinked]) == ParentsOf(l)[s := None]
  {
    var m, after := l[s := Unlinked], kids[s := []];
    FreeHasNoKids(l, kids, s);
    forall p | p in m ensures ChildList(m, p, after[p]) {
      if p != s {
        assert ChildList(l, p, kids[p]);
        forall x | x in kids[p] ensures x != s { ChildOf(l, kids, p, x); }
        UntouchedList(l, m, p, kids[p]);
      }
    }
    forall c | c in m ensures KnownToParent(m, after, c) {
      if c != s { assert KnownToParent(l, kids, c); }
    }
  }

  lemma FreshSchedule(n: Nodes, par: Parents, s: Id, node: Node)
    requires Scheduled(n, par, {}) && (s in par ==> par[s].None?) && forall x | x in par :: par[x] != Some(s)
    requires node.weight > 0 && !node.queued && node.obq == []
    ensures Scheduled(n[s := node], par[s := None], {})
  {
    var m, now := n[s := node], par[s := None];
    forall x | x in m ensures QueueOk(m, now, x) {
      if x != s {
        assert QueueOk(n, par, x);
        forall i | 0 <= i < |n[x].obq| ensures QueuedBelow(m, now, x, m[x].obq[i]) && m[x].lastCycle <= m[m[x].obq[i]].cycle {
          assert QueuedBelow(n, par, x, n[x].obq[i]);
        }
        HeapUnmoved(n[x].obq, Cycles(n), Cycles(m));
      }
    }
    forall c | c in m ensures InParentsQueue(m, now, c) { if c != s { assert InParentsQueue(n, par, c); } }
    forall x | x in m && x !in {} ensures QueuedIffActive(m, now, x) { if x != s { assert QueuedIffActive(n, par, x); } }
  }

  lemma FreshWeights(l: Links, n: Nodes, kids: Kids, s: Id, node: Node)
    requires Weighted(n, kids) && Shaped(l, kids) && Free(l, s) && l.Keys == n.Keys
    requires 1 <= node.weight <= 256 && node.sumDepWeight == 0
    ensures Weighted(n[s := node], kids[s := []])
  {
    var m, after := n[s := node], kids[s := []];
    forall p | p in m ensures SumOk(m, after, p) {
      if p != s {
        assert SumOk(n, kids, p);
        forall x | x in kids[p] ensures x != s { ChildOf(l, kids, p, x); }
        SumSame(n, m, kids[p]);
      }
    }
  }

  /** A stream may be added, or set up anew while it has no links. */
  lemma FreshStream(l: Links, n: Nodes, kids: Kids, rank: map<Id, nat>, s: Id, weight: nat)
    requires Forest(l, n, kids, rank) && s != Root && 1 <= weight <= 256 && Free(l, s)
    ensures Forest(l[s := Unlinked], n[s := NewNode(weight)], kids[s := []], rank[s := 0])
    ensures ParentsOf(l[s := Unlinked]) == ParentsOf(l)[s := None]
  {
    FreshShape(l, kids, s);
    FreeHasNoKids(l, kids, s);
    FreshSchedule(n, ParentsOf(l), s, NewNode(weight));
    FreshWeights(l, n, kids, s, NewNode(weight));
  }

  lemma GoneShape(l: Links, kids: Kids, s: Id)
    requires Shaped(l, kids) && s in l && l[s] == Unlinked
    ensures Shaped(l - {s}, kids - {s}) && ParentsOf(l - {s}) == ParentsOf(l) - {s}
  {
    var m, after := l - {s}, kids - {s};
    FreeHasNoKids(l, kids, s);
    assert after.Keys == m.Keys;
    forall p | p in m ensures ChildList(m, p, after[p]) {
      assert ChildList(l, p, kids[p]);
      forall i | 0 <= i < |kids[p]| ensures kids[p][i] != s { ChildOf(l, kids, p, kids[p][i]); }
      UntouchedList(l, m, p, kids[p]);
    }
    forall c | c in m ensures KnownToParent(m, after, c) { assert KnownToParent(l, kids, c); }
  }

  lemma GoneSchedule(n: Nodes, par: Parents, s: Id)
    requires Scheduled(n, par, {}) && s in par && par[s].None? && forall x | x in par :: par[x] != Some(s)
    ensures Scheduled(n - {s}, par - {s}, {})
  {
    var m, now := n - {s}, par - {s};
    assert m.Keys == now.Keys;
    forall x | x in m ensures QueueOk(m, now, x) {
      assert QueueOk(n, par, x);
      forall i | 0 <= i < |n[x].obq| ensures QueuedBelow(m, now, x, m[x].obq[i]) && m[x].lastCycle <= m[m[x].obq[i]].cycle {
        assert QueuedBelow(n, par, x, n[x].obq[i]);
      }
      HeapUnmoved(n[x].obq, Cycles(n), Cycles(m));
    }
    forall c | c in m ensures InParentsQueue(m, now, c) { assert InParentsQueue(n, par, c); }
    forall x | x in m && x !in {} ensures QueuedIffActive(m, now, x) { assert QueuedIffActive(n, par, x); }
  }

  lemma GoneWeights(l: Links, n: Nodes, kids: Kids, s: Id)
    requires Weighted(n, kids) && Shaped(l, kids) && s in l && l[s] == Unlinked && l.Keys == n.Keys
    ensures Weighted(n - {s}, kids - {s})
  {
    var m, after := n - {s}, kids - {s};
    assert m.Keys == after.Keys;
    forall p | p in m ensures SumOk(m, after, p) {
      assert SumOk(n, kids, p);
      forall x | x in kids[p] ensures x != s { ChildOf(l, kids, p, x); }
      SumSame(n, m, kids[p]);
    }
  }

  /** A stream without links may go. */
  lemma GoneStream(l: Links, n: Nodes, kids: Kids, rank: map<Id, nat>, s: Id)
    requires Forest(l, n, kids, rank) && s != Root && s in l && l[s] == Unlinked
    ensures Forest(l - {s}, n - {s}, kids - {s}, rank) && ParentsOf(l - {s}) == ParentsOf(l) - {s}
  {
    GoneShape(l, kids, s);
    FreeHasNoKids(l, kids, s);
    GoneSchedule(n, ParentsOf(l), s);
    GoneWeights(l, n, kids, s);
  }

  /** Nothing is below a stream without children. */
  lemma {:induction false} NothingBelowFresh(par: Parents, rank: map<Id, nat>, s: Id, x: Id)
    requires Ranked(par, rank) && Closed(par) && x in par && x != s && forall y | y in par :: par[y] != Some(s)
    ensures !Below(par, rank, x, s)
    decreases rank[x]
  {
    BelowStep(par, rank, x, s);
    if par[x].Some? { NothingBelowFresh(par, rank, s, par[x].value); }
  }

  /** What is not below `s` stays so whatever parent `s` gets. */
  lemma {:induction false} NotBelowStays(par: Parents, rank: map<Id, nat>, now: Parents, rerank: map<Id, nat>, x: Id, s: Id)
    requires Ranked(par, rank) && Ranked(now, rerank) && Closed(par) && Closed(now) && x in par && !Below(par, rank, x, s)
    requires now.Keys == par.Keys && forall y | y in par && y != s :: now[y] == par[y]
    ensures !Below(now, rerank, x, s)
    decreases rank[x]
  {
    BelowStep(par, rank, x, s);
    BelowStep(now, rerank, x, s);
    if par[x].Some? { NotBelowStays(par, rank, now, rerank, par[x].value, s); }
  }

  /** A stream without parent may get another weight. */
  lemma LooseWeight(l: Links, n: Nodes, kids: Kids, rank: map<Id, nat>, s: Id, weight: nat)
    requires Forest(l, n, kids, rank) && s in l && l[s].depPrev.None? && 1 <= weight <= 256
    ensures Forest(l, n[s := n[s].(weight := weight)], kids, rank)
  {
    var m := n[s := n[s].(weight := weight)];
    MeasuresMayChange(n, m, ParentsOf(l), {});
    forall p | p in m ensures SumOk(m, kids, p) {
      assert SumOk(n, kids, p);
      forall x | x in kids[p] ensures x != s { ChildOf(l, kids, p, x); }
      SumSame(n, m, kids[p]);
    }
  }
}
