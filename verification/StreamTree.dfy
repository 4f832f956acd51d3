/**
 * The priority tree of a session: streams are opened, closed and reprioritized
 * (lib/nghttp2_session.c), and get, lose, put off and resume their items
 * (lib/nghttp2_stream.c).
 */
module StreamTree {
  import opened Bytes
  import opened StreamSchedule
  import opened StreamLinks
  import opened StreamForest
  import opened StreamFairness
  import opened StreamReturns

  const DefaultWeight: nat := 16

  /** nghttp2_priority_spec. */
  datatype Priority = Priority(dep: Id, weight: nat, exclusive: bool)

  const DefaultPriority: Priority := Priority(Root, DefaultWeight, false)

  /** A priority that names a stream outside the tree is replaced by the default. */
  function Effective(par: Parents, pri: Priority, idle: bool): Priority
  {
    if pri.dep == Root then pri
    else if pri.dep in par then (if par[pri.dep].Some? then pri else DefaultPriority)
    else if idle then pri else DefaultPriority
  }

  /** An idle stream that a priority names is added below the root. */
  function WithIdle(par: Parents, pri: Priority, idle: bool): Parents
  {
    if pri.dep != Root && pri.dep !in par && idle then par[pri.dep := Some(Root)] else par
  }

  /** Its node has nothing to send yet. */
  function WithIdleNode(n: Nodes, pri: Priority, idle: bool): Nodes
  {
    if pri.dep != Root && pri.dep !in n && idle then n[pri.dep := NewNode(DefaultWeight)] else n
  }

  /** Items, deferrals and weights are the same. */
  predicate SameStreams(n: Nodes, m: Nodes)
  {
    m.Keys == n.Keys &&
    forall x | x in n :: m[x].item == n[x].item && m[x].deferred == n[x].deferred && m[x].weight == n[x].weight
  }

  /**
   * Items, deferrals and weights of all streams but `s`, once `s` left: its children share
   * its weight, and nothing else changes.
   */
  predicate LeftStreams(n: Nodes, m: Nodes, par: Parents, s: Id)
  {
    forall x | x in n && x != s ::
      && x in m && m[x].item == n[x].item && m[x].deferred == n[x].deferred
      && if s in n && x in par && par[x] == Some(s) then IsShare(n[s], n[x], m[x].weight) else m[x].weight == n[x].weight
  }

  predicate IsShare(n: Node, child: Node, weight: nat)
  {
    1 <= n.weight <= 256 && 0 < child.weight <= n.sumDepWeight && weight == DistributedWeight(n, child.weight)
  }

  /** A stream that was just set up. */
  predicate IsNew(n: Node, weight: nat) { !n.item && n.deferred == {} && n.weight == weight }

  function WithWeight(n: Nodes, s: Id, weight: nat): Nodes
    requires s in n
  {
    n[s := n[s].(weight := weight)]
  }

  lemma SameThenWeighed(a: Nodes, b: Nodes, c: Nodes, s: Id, weight: nat)
    requires s in a && s in b && SameStreams(a, b) && SameStreams(WithWeight(b, s, weight), c)
    ensures SameStreams(WithWeight(a, s, weight), c)
  {}

  lemma IdleAdded(par: Parents, s: Id)
    ensures Placed(par[s := None], s, Root, false) == par[s := Some(Root)]
  {}

  lemma IdleThenNew(a: Nodes, b: Nodes, c: Nodes, s: Id, weight: nat)
    requires SameStreams(a, b) && SameStreams(b[s := NewNode(weight)], c)
    ensures SameStreams(a[s := NewNode(weight)], c)
  {}

  /** Removing a stream changes the weights of its children only. */
  lemma LeavingKeepsStreams(l: Links, n: Nodes, m: Nodes, kids: Kids, rank: map<Id, nat>, p: Id, s: Id)
    requires Forest(l, n, kids, rank) && s in l && p in n && Sharable(n, s, kids[s]) && OnlySchedule(Reshared(n, p, s, kids[s]), m)
    ensures m.Keys == n.Keys && LeftStreams(n, m, ParentsOf(l), s)
  {
    KidsByParent(l, kids, s);
  }

  /** A stream set up in the place of one that left. */
  lemma LeftThenNew(n: Nodes, a: Nodes, b: Nodes, par: Parents, s: Id, pri: Priority, idle: bool, weight: nat)
    requires LeftStreams(n, a, par, s) && SameStreams(WithIdleNode(a, pri, idle)[s := NewNode(weight)], b) && pri.dep != s
    ensures LeftStreams(n, b, par, s) && s in b && IsNew(b[s], weight)
    ensures pri.dep != Root && pri.dep !in a && idle ==> pri.dep in b && IsNew(b[pri.dep], DefaultWeight)
  {}

  lemma PlacingKeepsStreams(n: Nodes, m: Nodes, dep: Id, s: Id)
    requires dep in n && s in n && dep != s
    requires OnlyQueues(AddWeight(n, dep, s), m) || OnlyQueues(InsertWeight(n, dep, s), m)
    ensures SameStreams(n, m)
  {}

  lemma TakingKeepsStreams(n: Nodes, m: Nodes, p: Id, s: Id)
    requires p in n && s in n && OnlyUnqueued(DropWeight(n, p, s), m)
    ensures SameStreams(n, m)
  {}

  /** The parents after `s` is given a priority; a new parent that is below `s` first moves to the root. */
  function Reprioritized(par: Parents, s: Id, dep: Id, exclusive: bool, cycle: bool): Parents
  {
    Placed(if cycle then par[dep := Some(Root)] else par, s, dep, exclusive)
  }

  /**
   * The parents section 5.3.3 of RFC 7540 asks for: a new parent that is below `s` first moves
   * to the former parent of `s`.
   */
  function RfcReprioritized(par: Parents, s: Id, dep: Id, exclusive: bool, cycle: bool): Parents
    requires s in par
  {
    map x | x in par ::
      if x == s then Some(dep)
      else if x == dep && cycle then par[s]
      else if exclusive && par[x] == Some(dep) then Some(s)
      else par[x]
  }

  /**
   * The parents are those of the standard for all streams but a new parent that was below `s`,
   * and for that one iff `s` was just below the root.
   */
  lemma ConformsIff(par: Parents, rank: map<Id, nat>, s: Id, dep: Id, exclusive: bool)
    requires Ranked(par, rank) && Closed(par) && Root in par && par[Root].None?
    requires s in par && par[s].Some? && dep in par && dep != s
    ensures
      var cycle := Below(par, rank, dep, s);
      var code, rfc := Reprioritized(par, s, dep, exclusive, cycle), RfcReprioritized(par, s, dep, exclusive, cycle);
      && code.Keys == rfc.Keys == par.Keys && (forall x | x in par && x != dep :: code[x] == rfc[x])
      && (code == rfc <==> !cycle || par[s] == Some(Root))
  {
    var cycle := Below(par, rank, dep, s);
    BelowStep(par, rank, Root, s);
    if cycle {
      NotBelowChild(par, rank, dep, s);
      assert par[s] != Some(dep) && dep != Root;
      assert Reprioritized(par, s, dep, exclusive, cycle)[dep] == Some(Root);
      assert RfcReprioritized(par, s, dep, exclusive, cycle)[dep] == par[s];
    }
  }

  /** The same for a priority as it is received. */
  lemma IdleConformsIff(par: Parents, rank: map<Id, nat>, s: Id, pri: Priority, idle: bool)
    requires Ranked(par, rank) && Closed(par) && Root in par && par[Root].None? && s in par && par[s].Some? && pri.dep != s
    ensures
      var r, now := Effective(par, pri, idle), WithIdle(par, pri, idle);
      var cycle := r.dep in par && Below(par, rank, r.dep, s);
      Reprioritized(now, s, r.dep, r.exclusive, cycle) == RfcReprioritized(now, s, r.dep, r.exclusive, cycle)
      <==> !cycle || par[s] == Some(Root)
  {
    var r := Effective(par, pri, idle);
    if r.dep in par && r.dep != s { ConformsIff(par, rank, s, r.dep, r.exclusive); }
    BelowStep(par, rank, Root, s);
  }

  /** An item that changed does not matter to cycles. */
  lemma ItemWakes(n: Nodes, m: Nodes, par: Parents, s: Id, item: bool, deferred: set<Reason>)
    requires s in n && OnlyQueues(WithItem(n, s, item, deferred), m) && QueuedStay(WithItem(n, s, item, deferred), m)
    requires Joins(WithItem(n, s, item, deferred), m, par)
    ensures SameMeasures(n, m) && QueuedStay(n, m) && Joins(n, m, par)
  {
    var a := WithItem(n, s, item, deferred);
    forall x | x in n ensures CycleAfter(n, m, par, x) { assert CycleAfter(a, m, par, x); }
  }

  lemma ItemSleeps(n: Nodes, m: Nodes, s: Id, item: bool, deferred: set<Reason>)
    requires s in n && OnlyUnqueued(WithItem(n, s, item, deferred), m) && Leaves(WithItem(n, s, item, deferred), m)
    ensures SameLengths(n, m) && Leaves(n, m) && forall x | x in n && m[x].queued :: n[x].queued
  {
    var a := WithItem(n, s, item, deferred);
    forall x | x in n ensures CyclesLeft(n, m, x) { assert CyclesLeft(a, m, x); }
  }

  /** Once `s` left, it has no links and the other streams without parent still have no children. */
  lemma LeavingIsRooted(l: Links, m: Links, n: Nodes, kids: Kids, rank: map<Id, nat>, p: Id, s: Id)
    requires Forest(l, n, kids, rank) && s in l && l[s].depPrev == Some(p) && Rooted(ParentsOf(l), kids, {})
    requires p in kids && s in kids[p] && Shaped(m, TakenOutKids(kids, p, s, true))
    requires ParentsOf(m) == LeftOut(ParentsOf(l), s)
    ensures Rooted(ParentsOf(m), TakenOutKids(kids, p, s, true), {}) && s in m && m[s] == Unlinked
  {
    var after := TakenOutKids(kids, p, s, true);
    ParentFacts(l, n, kids, rank, p, s);
    assert s in ParentsOf(m) && ParentsOf(m)[s].None?;
    forall x | x in m && x != Root && ParentsOf(m)[x].None? ensures Bare(after, x) {
      assert x != s ==> ParentsOf(l)[x] != Some(s);
      assert x != s ==> Bare(kids, x);
      assert p != Root && l[p].depPrev.None? ==> Bare(kids, p);
    }
    InTreeHasParent(m, after, s);
  }

  lemma PlacedIsRooted(par: Parents, kids: Kids, dep: Id, s: Id, exclusive: bool)
    requires Rooted(par, kids, {s}) && dep in par && s in par && par.Keys == kids.Keys && (dep == Root || par[dep].Some?)
    ensures Rooted(Placed(par, s, dep, exclusive), if exclusive then InsertedAbove(kids, dep, s) else Added(kids, dep, s), {})
    ensures !exclusive ==> Placed(par, s, dep, false) == par[s := Some(dep)]
  {
    var now, after := Placed(par, s, dep, exclusive), if exclusive then InsertedAbove(kids, dep, s) else Added(kids, dep, s);
    forall x | x in now && x != Root && now[x].None? ensures Bare(after, x) { assert Bare(kids, x); }
  }

  lemma TakenIsRooted(par: Parents, kids: Kids, p: Id, s: Id)
    requires Rooted(par, kids, {}) && s in par && par[s] == Some(p) && par.Keys == kids.Keys && p in par && s in kids[p]
    ensures Rooted(par[s := None], TakenOutKids(kids, p, s, false), {s})
  {
    forall x | x in par && x != Root && x != s && par[x].None? ensures Bare(TakenOutKids(kids, p, s, false), x) {
      assert Bare(kids, x);
    }
  }

  lemma GoneIsValid(l: Links, n: Nodes, kids: Kids, rank: map<Id, nat>, s: Id)
    requires Forest(l, n, kids, rank) && Rooted(ParentsOf(l), kids, {}) && s in l && s != Root && l[s] == Unlinked
    ensures Forest(l - {s}, n - {s}, kids - {s}, rank) && Rooted(ParentsOf(l - {s}), kids - {s}, {})
    ensures ParentsOf(l - {s}) == ParentsOf(l) - {s}
  {
    GoneStream(l, n, kids, rank, s);
    forall x | x in l && x != Root && x != s && l[x].depPrev.None? ensures Bare(kids - {s}, x) { assert Bare(kids, x); }
  }

  lemma FreshMayJoin(l: Links, n: Nodes, kids: Kids, rank: map<Id, nat>, s: Id, weight: nat, dep: Id)
    requires Forest(l, n, kids, rank) && s != Root && 1 <= weight <= 256 && Free(l, s) && dep in l && dep != s
    ensures ParentsOf(l[s := Unlinked]) == ParentsOf(l)[s := None]
    ensures MayJoin(l[s := Unlinked], n[s := NewNode(weight)], kids[s := []], rank[s := 0], dep, s)
  {
    FreshStream(l, n, kids, rank, s, weight);
    FreeHasNoKids(l[s := Unlinked], kids[s := []], s);
    NothingBelowFresh(ParentsOf(l)[s := None], rank[s := 0], s, dep);
  }

  lemma {:induction false} BelowWhateverRank(par: Parents, rank: map<Id, nat>, rerank: map<Id, nat>, x: Id, top: Id)
    requires Ranked(par, rank) && Ranked(par, rerank) && Closed(par) && x in par
    ensures Below(par, rank, x, top) == Below(par, rerank, x, top)
    decreases rank[x]
  {
    BelowStep(par, rank, x, top);
    BelowStep(par, rerank, x, top);
    if par[x].Some? { BelowWhateverRank(par, rank, rerank, par[x].value, top); }
  }

  /** The root, and a stream just below it, are below no other stream. */
  lemma TopIsBelowNone(par: Parents, rank: map<Id, nat>, x: Id, s: Id)
    requires Ranked(par, rank) && Closed(par) && Root in par && par[Root].None? && x in par && s != Root && s != x
    requires x == Root || par[x] == Some(Root)
    ensures !Below(par, rank, x, s)
  {
    BelowStep(par, rank, x, s);
    BelowStep(par, rank, Root, s);
  }

  /** A subtree taken away may join any stream that was not below it, with any weight. */
  lemma JoinAgain(l: Links, n: Nodes, kids: Kids, rank: map<Id, nat>, par: Parents, ranked: map<Id, nat>, s: Id, pri: Priority)
    requires Forest(l, n, kids, rank) && s in par && ParentsOf(l) == par[s := None] && s != Root && 1 <= pri.weight <= 256
    requires Ranked(par, ranked) && Closed(par) && pri.dep in par && !Below(par, ranked, pri.dep, s)
    requires pri.dep == Root || par[pri.dep].Some?
    ensures s in n && MayJoin(l, WithWeight(n, s, pri.weight), kids, rank, pri.dep, s)
    ensures pri.dep == Root || l[pri.dep].depPrev.Some?
    ensures Placed(par[s := None], s, pri.dep, pri.exclusive) == Placed(par, s, pri.dep, pri.exclusive)
  {
    assert s in ParentsOf(l) && ParentsOf(l)[s].None?;
    BelowStep(par, ranked, pri.dep, s);
    assert pri.dep in ParentsOf(l) && ParentsOf(l)[pri.dep] == par[pri.dep];
    NotBelowStays(par, ranked, ParentsOf(l), rank, pri.dep, s);
    LooseWeight(l, n, kids, rank, s, pri.weight);
    PlacedAgain(par, s, pri.dep, pri.exclusive);
  }

  /** Where a stream was does not matter to where it is put. */
  lemma PlacedAgain(par: Parents, s: Id, dep: Id, exclusive: bool)
    requires s in par
    ensures Placed(par[s := None], s, dep, exclusive) == Placed(par, s, dep, exclusive)
  {}

  function WithLength(n: Nodes, s: Id, len: nat): Nodes
    requires s in n
  {
    n[s := n[s].(lastWriteLen := len)]
  }

  lemma LengthMayChange(n: Nodes, par: Parents, rank: map<Id, nat>, s: Id, len: nat)
    requires Scheduled(n, par, {}) && Ranked(par, rank) && s in n && FirstAllTheWay(n, par, rank, s)
    ensures Scheduled(WithLength(n, s, len), par, {}) && FirstAllTheWay(WithLength(n, s, len), par, rank, s)
  {
    MeasuresMayChange(n, WithLength(n, s, len), par, {});
    FirstStays(n, WithLength(n, s, len), par, rank, s);
  }

  /** The length was not known before the write. */
  lemma LengthForgotten(n: Nodes, m: Nodes, par: Parents, rank: map<Id, nat>, s: Id, len: nat)
    requires Related(n, par) && Ranked(par, rank) && s in n
    requires OnlyOrder(WithLength(n, s, len), m) && WayServed(WithLength(n, s, len), m, par, rank, s, len)
    ensures OnlyOrder(n, m) && WayServed(n, m, par, rank, s, len)
  {
    var k := WithLength(n, s, len);
    forall x | x in n && Below(par, rank, s, x) && par[x].Some?
      ensures ServedAt(n, m, par[x].value, x, Stride(len, n[x].weight))
    {
      assert ServedAt(k, m, par[x].value, x, Stride(len, k[x].weight));
    }
    assert Below(par, rank, s, s);
  }

  /** Whether there is a cycle does not change when an idle stream is added below the root. */
  lemma CycleAsBefore(par: Parents, rank: map<Id, nat>, now: Parents, rerank: map<Id, nat>, s: Id, pri: Priority, idle: bool)
    requires Ranked(par, rank) && Closed(par) && Ranked(now, rerank) && Closed(now) && Root in par && par[Root].None?
    requires now == WithIdle(par, pri, idle) && s != Root && s != pri.dep && Effective(par, pri, idle).dep in now
    ensures
      var dep := Effective(par, pri, idle).dep;
      Below(now, rerank, dep, s) <==> dep in par && Below(par, rank, dep, s)
  {
    var dep := Effective(par, pri, idle).dep;
    if dep in par && now == par {
      BelowWhateverRank(par, rank, rerank, dep, s);
    } else {
      TopIsBelowNone(now, rerank, dep, s);
      if dep in par { TopIsBelowNone(par, rank, dep, s); }
    }
  }

  /** `s` may come below `dep`, which is in the tree; until then all but `s` is as it should be. */
  ghost predicate Joinable(l: Links, n: Nodes, kids: Kids, rank: map<Id, nat>, dep: Id, s: Id)
  {
    MayJoin(l, n, kids, rank, dep, s) && Rooted(ParentsOf(l), kids, {s}) && (dep == Root || l[dep].depPrev.Some?)
  }

  /** A tree: a forest in which all streams with links are below the root. */
  ghost predicate Tree(l: Links, n: Nodes, kids: Kids, rank: map<Id, nat>)
  {
    Forest(l, n, kids, rank) && Rooted(ParentsOf(l), kids, {})
  }

  method JoinFirst(l0: Links, n0: Nodes, dep: Id, s: Id, ghost kids: Kids, ghost rank: map<Id, nat>)
    returns (l: Links, n: Nodes, ghost k: Kids, ghost r: map<Id, nat>)
    requires Joinable(l0, n0, kids, rank, dep, s)
    ensures Tree(l, n, k, r) && ParentsOf(l) == Placed(ParentsOf(l0), s, dep, false)
    ensures OnlyQueues(AddWeight(n0, dep, s), n) && (!SubtreeActive(n0[s]) ==> n == AddWeight(n0, dep, s))
    ensures Settles(n0, n, ParentsOf(l0), ParentsOf(l))
  {
    PlacedIsRooted(ParentsOf(l0), kids, dep, s, false);
    l, n := AddBelow(l0, n0, dep, s, kids, rank);
    k, r := Added(kids, dep, s), Lifted(ParentsOf(l0), rank, dep, s);
  }

  method JoinNewAbove(l0: Links, n0: Nodes, dep: Id, s: Id, ghost kids: Kids, ghost rank: map<Id, nat>)
    returns (l: Links, n: Nodes, ghost k: Kids, ghost r: map<Id, nat>)
    requires Joinable(l0, n0, kids, rank, dep, s) && kids[s] == [] && !SubtreeActive(n0[s])
    ensures dep != s && OnlyQueues(InsertWeight(n0, dep, s), n)
    ensures Tree(l, n, k, r) && ParentsOf(l) == Placed(ParentsOf(l0), s, dep, true)
    ensures Settles(n0, n, ParentsOf(l0), ParentsOf(l))
  {
    PlacedIsRooted(ParentsOf(l0), kids, dep, s, true);
    l, n := InsertNew(l0, n0, dep, s, kids, rank);
    k, r := InsertedAbove(kids, dep, s), Lifted(ParentsOf(l0), rank, dep, s);
  }

  method JoinAbove(l0: Links, n0: Nodes, dep: Id, s: Id, ghost kids: Kids, ghost rank: map<Id, nat>)
    returns (l: Links, n: Nodes, ghost k: Kids, ghost r: map<Id, nat>)
    requires Joinable(l0, n0, kids, rank, dep, s)
    ensures dep != s && OnlyQueues(InsertWeight(n0, dep, s), n)
    ensures Tree(l, n, k, r) && ParentsOf(l) == Placed(ParentsOf(l0), s, dep, true)
    ensures Settles(n0, n, ParentsOf(l0), ParentsOf(l))
  {
    PlacedIsRooted(ParentsOf(l0), kids, dep, s, true);
    l, n := InsertSubtree(l0, n0, dep, s, kids, rank);
    k, r := InsertedAbove(kids, dep, s), Lifted(ParentsOf(l0), rank, dep, s);
  }

  method TakeSubtree(l0: Links, n0: Nodes, s: Id, ghost kids: Kids, ghost rank: map<Id, nat>)
    returns (l: Links, n: Nodes, ghost k: Kids)
    requires Tree(l0, n0, kids, rank) && s in l0 && l0[s].depPrev.Some?
    ensures Forest(l, n, k, rank) && Rooted(ParentsOf(l), k, {s}) && ParentsOf(l) == ParentsOf(l0)[s := None]
    ensures
      var p := l0[s].depPrev.value;
      p in n0 && OnlyUnqueued(DropWeight(n0, p, s), n)
    ensures Settles(n0, n, ParentsOf(l0), ParentsOf(l))
  {
    ghost var p := l0[s].depPrev.value;
    ParentFacts(l0, n0, kids, rank, p, s);
    TakenIsRooted(ParentsOf(l0), kids, p, s);
    l, n := RemoveSubtree(l0, n0, s, kids, rank);
    k := TakenOutKids(kids, p, s, false);
  }

  method TakeStream(l0: Links, n0: Nodes, s: Id, ghost kids: Kids, ghost rank: map<Id, nat>)
    returns (l: Links, n: Nodes, ghost k: Kids)
    requires Tree(l0, n0, kids, rank) && s in l0 && l0[s].depPrev.Some?
    ensures Tree(l, n, k, rank) && ParentsOf(l) == LeftOut(ParentsOf(l0), s) && s in l && l[s] == Unlinked
    ensures
      var p := l0[s].depPrev.value;
      && p in n0
      && Sharable(n0, s, kids[s]) && OnlySchedule(Reshared(n0, p, s, kids[s]), n)
    ensures Settles(n0, n, ParentsOf(l0), ParentsOf(l))
  {
    ghost var p := l0[s].depPrev.value;
    l, n := RemoveStream(l0, n0, s, kids, rank);
    LeavingIsRooted(l0, l, n0, kids, rank, p, s);
    k := TakenOutKids(kids, p, s, true);
  }

  lemma FreshIsRooted(par: Parents, kids: Kids, s: Id)
    requires Rooted(par, kids, {}) && par.Keys == kids.Keys
    ensures Rooted(par[s := None], kids[s := []], {s})
  {
    forall x | x in par && x != Root && x != s && par[x].None? ensures Bare(kids[s := []], x) { assert Bare(kids, x); }
  }

  class StreamTree {
    var links: Links
    var nodes: Nodes
    ghost var kids: Kids
    ghost var rank: map<Id, nat>

    /** The links form a forest whose sums and queues are right. */
    ghost predicate Consistent()
      reads this
    {
      Forest(links, nodes, kids, rank)
    }

    /** All streams with links are below the root. */
    ghost predicate Valid()
      reads this
    {
      Tree(links, nodes, kids, rank)
    }

    constructor ()
      ensures Valid() && ParentsOf(links) == map[Root := None]
    {
      links, nodes := map[Root := Unlinked], map[Root := NewNode(DefaultWeight)];
      kids, rank := map[Root := []], map[Root := 0];
    }

    method Become(l: Links, n: Nodes, ghost k: Kids, ghost r: map<Id, nat>)
      modifies this
      ensures links == l && nodes == n && kids == k && rank == r
    {
      links, nodes, kids, rank := l, n, k, r;
    }

    // ------------------------------------------------------------------------- items

    /** nghttp2_stream_attach_item. */
    method Attach(s: Id)
      requires Consistent() && s in nodes && nodes[s].deferred == {} && !nodes[s].item
      modifies this`nodes
      ensures Consistent() && OnlyQueues(WithItem(old(nodes), s, true, {}), nodes)
      ensures Woke(old(nodes), nodes, ParentsOf(links))
    {
      ItemMayChange(nodes, ParentsOf(links), s, true, {});
      var n := Activate(links, WithItem(nodes, s, true, {}), s, rank);
      ItemChanged(links, nodes, s, true, {}, n, kids, rank);
      ItemWakes(nodes, n, ParentsOf(links), s, true, {});
      nodes := n;
    }

    /** nghttp2_stream_detach_item. */
    method Detach(s: Id)
      requires Consistent() && s in nodes
      modifies this`nodes
      ensures Consistent() && OnlyUnqueued(WithItem(old(nodes), s, false, {}), nodes)
      ensures Slept(old(nodes), nodes, ParentsOf(links))
    {
      ItemMayChange(nodes, ParentsOf(links), s, false, {});
      var n := Deactivate(links, WithItem(nodes, s, false, {}), s, rank);
      ItemChanged(links, nodes, s, false, {}, n, kids, rank);
      ItemSleeps(nodes, n, s, false, {});
      nodes := n;
    }

    /**
     * nghttp2_stream_defer_item. With no reason at all, an active stream with nothing below
     * it leaves its parent's queue for good.
     */
    method Defer(s: Id, reasons: set<Reason>)
      requires Consistent() && s in nodes && nodes[s].item
      modifies this`nodes
      ensures Consistent() <==> (old(nodes)[s].deferred + reasons != {} || old(nodes)[s].obq != [] || links[s].depPrev.None?)
      ensures OnlyUnqueued(WithItem(old(nodes), s, true, old(nodes)[s].deferred + reasons), nodes)
      ensures Consistent() ==> Slept(old(nodes), nodes, ParentsOf(links))
    {
      var deferred := nodes[s].deferred + reasons;
      ItemMayChange(nodes, ParentsOf(links), s, true, deferred);
      var n := Deactivate(links, WithItem(nodes, s, true, deferred), s, rank);
      ItemChanged(links, nodes, s, true, deferred, n, kids, rank);
      ItemSleeps(nodes, n, s, true, deferred);
      nodes := n;
    }

    /** nghttp2_stream_resume_deferred_item. */
    method Resume(s: Id, reasons: set<Reason>)
      requires Consistent() && s in nodes && nodes[s].item
      modifies this`nodes
      ensures Consistent()
      ensures OnlyQueues(WithItem(old(nodes), s, true, old(nodes)[s].deferred - reasons), nodes)
      ensures Woke(old(nodes), nodes, ParentsOf(links))
    {
      var deferred := nodes[s].deferred - reasons;
      ItemMayChange(nodes, ParentsOf(links), s, true, deferred);
      var n := WithItem(nodes, s, true, deferred);
      NoneJoins(n, ParentsOf(links));
      if n[s].deferred == {} {
        n := Activate(links, n, s, rank);
      }
      ItemWakes(nodes, n, ParentsOf(links), s, true, deferred);
      ItemChanged(links, nodes, s, true, deferred, n, kids, rank);
      nodes := n;
    }

    // ------------------------------------------------------------------- dependencies

    /** nghttp2_stream_dep_add_subtree; nghttp2_stream_dep_add for a stream with nothing to send. */
    method DepAdd(dep: Id, s: Id)
      requires Joinable(links, nodes, kids, rank, dep, s)
      modifies this
      ensures Valid() && ParentsOf(links) == Placed(old(ParentsOf(links)), s, dep, false)
      ensures OnlyQueues(AddWeight(old(nodes), dep, s), nodes)
      ensures !SubtreeActive(old(nodes)[s]) ==> nodes == AddWeight(old(nodes), dep, s)
      ensures Settles(old(nodes), nodes, old(ParentsOf(links)), ParentsOf(links))
    {
      var l, n, k, r := JoinFirst(links, nodes, dep, s, kids, rank);
      Become(l, n, k, r);
    }

    /** nghttp2_stream_dep_remove_subtree. */
    method DepRemoveSubtree(s: Id)
      requires Valid() && s in links && links[s].depPrev.Some?
      modifies this
      ensures Consistent() && Rooted(ParentsOf(links), kids, {s}) && ParentsOf(links) == old(ParentsOf(links))[s := None]
      ensures
        var p := old(links)[s].depPrev.value;
        p in old(nodes) && OnlyUnqueued(DropWeight(old(nodes), p, s), nodes)
      ensures Settles(old(nodes), nodes, old(ParentsOf(links)), ParentsOf(links))
    {
      var l, n, k := TakeSubtree(links, nodes, s, kids, rank);
      Become(l, n, k, rank);
    }

    /** nghttp2_stream_dep_remove. */
    method DepRemove(s: Id)
      requires Valid() && s in links && links[s].depPrev.Some?
      modifies this
      ensures Valid() && ParentsOf(links) == LeftOut(old(ParentsOf(links)), s) && links[s] == Unlinked
      ensures
        var p, k := old(links)[s].depPrev.value, old(kids)[s];
        p in old(nodes) && Sharable(old(nodes), s, k) && OnlySchedule(Reshared(old(nodes), p, s, k), nodes)
      ensures Settles(old(nodes), nodes, old(ParentsOf(links)), ParentsOf(links))
    {
      var l, n, k := TakeStream(links, nodes, s, kids, rank);
      Become(l, n, k, rank);
    }

    /** nghttp2_stream_dep_insert. */
    method DepInsert(dep: Id, s: Id)
      requires Joinable(links, nodes, kids, rank, dep, s) && kids[s] == [] && !SubtreeActive(nodes[s])
      modifies this
      ensures Valid() && dep != s && ParentsOf(links) == Placed(old(ParentsOf(links)), s, dep, true)
      ensures OnlyQueues(InsertWeight(old(nodes), dep, s), nodes)
      ensures Settles(old(nodes), nodes, old(ParentsOf(links)), ParentsOf(links))
    {
      var l, n, k, r := JoinNewAbove(links, nodes, dep, s, kids, rank);
      Become(l, n, k, r);
    }

    /** nghttp2_stream_dep_insert_subtree. */
    method DepInsertSubtree(dep: Id, s: Id)
      requires Joinable(links, nodes, kids, rank, dep, s)
      modifies this
      ensures Valid() && dep != s && ParentsOf(links) == Placed(old(ParentsOf(links)), s, dep, true)
      ensures OnlyQueues(InsertWeight(old(nodes), dep, s), nodes)
      ensures Settles(old(nodes), nodes, old(ParentsOf(links)), ParentsOf(links))
    {
      var l, n, k, r := JoinAbove(links, nodes, dep, s, kids, rank);
      Become(l, n, k, r);
    }

    /** Puts the stream `s`, which has no parent, where a priority says. */
    method Place(s: Id, pri: Priority)
      requires Joinable(links, nodes, kids, rank, pri.dep, s)
      modifies this
      ensures Valid() && ParentsOf(links) == Placed(old(ParentsOf(links)), s, pri.dep, pri.exclusive)
      ensures SameStreams(old(nodes), nodes)
    {
      ghost var before := nodes;
      BelowStep(ParentsOf(links), rank, pri.dep, s);
      if pri.exclusive {
        DepInsertSubtree(pri.dep, s);
      } else {
        DepAdd(pri.dep, s);
      }
      PlacingKeepsStreams(before, nodes, pri.dep, s);
    }

    /** The same for a stream with no children and nothing to send. */
    method PlaceNew(s: Id, pri: Priority)
      requires Joinable(links, nodes, kids, rank, pri.dep, s) && kids[s] == [] && !SubtreeActive(nodes[s])
      modifies this
      ensures Valid() && ParentsOf(links) == Placed(old(ParentsOf(links)), s, pri.dep, pri.exclusive)
      ensures SameStreams(old(nodes), nodes)
    {
      ghost var before := nodes;
      BelowStep(ParentsOf(links), rank, pri.dep, s);
      if pri.exclusive {
        DepInsert(pri.dep, s);
      } else {
        DepAdd(pri.dep, s);
      }
      PlacingKeepsStreams(before, nodes, pri.dep, s);
    }

    /** nghttp2_stream_dep_find_ancestor. */
    method FindAncestor(s: Id, target: Id) returns (found: bool)
      requires Consistent() && s in links
      ensures found == Below(ParentsOf(links), rank, s, target)
    {
      ghost var par := ParentsOf(links);
      var x := Some(s);
      while x.Some?
        invariant x.Some? ==> x.value in links && Below(par, rank, s, target) == Below(par, rank, x.value, target)
        invariant x.None? ==> !Below(par, rank, s, target)
        decreases if x.Some? then rank[x.value] + 1 else 0
      {
        BelowStep(par, rank, x.value, target);
        if x.value == target {
          return true;
        }
        x := links[x.value].depPrev;
      }
      return false;
    }

    /** Sets up a stream without parent, or a new one, that will come below `dep`. */
    method Init(s: Id, weight: nat, ghost dep: Id)
      requires Valid() && s != Root && 1 <= weight <= 256 && (s in links ==> links[s].depPrev.None?) && dep != s
      requires dep in links && (dep == Root || links[dep].depPrev.Some?)
      modifies this
      ensures Joinable(links, nodes, kids, rank, dep, s) && kids[s] == []
      ensures ParentsOf(links) == old(ParentsOf(links))[s := None] && nodes == old(nodes)[s := NewNode(weight)]
    {
      if s in links { InTreeHasParent(links, kids, s); }
      FreshMayJoin(links, nodes, kids, rank, s, weight, dep);
      FreshIsRooted(ParentsOf(links), kids, s);
      Become(links[s := Unlinked], nodes[s := NewNode(weight)], kids[s := []], rank[s := 0]);
    }

    /** Sets up a stream and puts it where its priority says. */
    method Start(s: Id, pri: Priority)
      requires Valid() && s != Root && 1 <= pri.weight <= 256 && (s in links ==> links[s].depPrev.None?)
      requires pri.dep != s && pri.dep in links && (pri.dep == Root || links[pri.dep].depPrev.Some?)
      modifies this
      ensures Valid() && ParentsOf(links) == Placed(old(ParentsOf(links))[s := None], s, pri.dep, pri.exclusive)
      ensures SameStreams(old(nodes)[s := NewNode(pri.weight)], nodes)
    {
      Init(s, pri.weight, pri.dep);
      PlaceNew(s, pri);
    }

    /**
     * What nghttp2_session_open_stream and nghttp2_session_reprioritize_stream make of a priority.
     * `idle` says that this is a server and the stream named may still be opened.
     */
    method Resolve(pri: Priority, idle: bool) returns (r: Priority)
      requires Valid() && 1 <= pri.weight <= 256
      modifies this
      ensures Valid() && r == Effective(old(ParentsOf(links)), pri, idle)
      ensures ParentsOf(links) == WithIdle(old(ParentsOf(links)), pri, idle)
      ensures r.dep in links && (r.dep == Root || links[r.dep].depPrev.Some?) && 1 <= r.weight <= 256
      ensures SameStreams(WithIdleNode(old(nodes), pri, idle), nodes)
    {
      r := pri;
      if pri.dep != Root {
        if pri.dep !in links {
          if idle {
            IdleAdded(ParentsOf(links), pri.dep);
            Start(pri.dep, DefaultPriority);
          } else {
            r := DefaultPriority;
          }
        } else {
          InTreeHasParent(links, kids, pri.dep);
          if !InTree(links[pri.dep]) {
            r := DefaultPriority;
          }
        }
      }
    }

    /** Takes `s` out of the tree if it is there. */
    method Leave(s: Id)
      requires Valid() && s in links && s != Root
      modifies this
      ensures Valid() && ParentsOf(links) == LeftOut(old(ParentsOf(links)), s) && links[s] == Unlinked
      ensures nodes.Keys == old(nodes).Keys && LeftStreams(old(nodes), nodes, old(ParentsOf(links)), s)
    {
      InTreeHasParent(links, kids, s);
      if InTree(links[s]) {
        ghost var l, n, k, r := links, nodes, kids, rank;
        DepRemove(s);
        LeavingKeepsStreams(l, n, nodes, k, r, l[s].depPrev.value, s);
      } else {
        FreeHasNoKids(links, kids, s);
      }
    }

    /** nghttp2_session_open_stream: the stream is new, or idle and in the tree. */
    method Open(s: Id, pri: Priority, idle: bool)
      requires Valid() && s != Root && pri.dep != s && 1 <= pri.weight <= 256 && (s in links ==> InTree(links[s]))
      modifies this
      ensures Valid() && s in nodes
      ensures
        var par := if s in old(links) then LeftOut(old(ParentsOf(links)), s) else old(ParentsOf(links));
        var r := Effective(par, pri, idle);
        && ParentsOf(links) == Placed(WithIdle(par, pri, idle)[s := None], s, r.dep, r.exclusive) && IsNew(nodes[s], r.weight)
        && (pri.dep != Root && pri.dep !in par && idle ==> pri.dep in nodes && IsNew(nodes[pri.dep], DefaultWeight))
      ensures LeftStreams(old(nodes), nodes, old(ParentsOf(links)), s)
    {
      ghost var n, par := nodes, ParentsOf(links);
      if s in links {
        Leave(s);
      }
      ghost var left, r := nodes, Effective(ParentsOf(links), pri, idle);
      Admit(s, pri, idle);
      LeftThenNew(n, left, nodes, par, s, pri, idle, r.weight);
    }

    /** The part of nghttp2_session_open_stream that follows once the stream is not in the tree. */
    method Admit(s: Id, pri: Priority, idle: bool)
      requires Valid() && s != Root && pri.dep != s && 1 <= pri.weight <= 256 && (s in links ==> links[s].depPrev.None?)
      modifies this
      ensures Valid()
      ensures
        var r := Effective(old(ParentsOf(links)), pri, idle);
        && ParentsOf(links) == Placed(WithIdle(old(ParentsOf(links)), pri, idle)[s := None], s, r.dep, r.exclusive)
        && SameStreams(WithIdleNode(old(nodes), pri, idle)[s := NewNode(r.weight)], nodes)
    {
      ghost var n := WithIdleNode(nodes, pri, idle);
      assert s in links ==> ParentsOf(links)[s].None?;
      var r := Resolve(pri, idle);
      assert s in links ==> links[s].depPrev == ParentsOf(links)[s];
      ghost var resolved := nodes;
      Start(s, r);
      IdleThenNew(n, resolved, nodes, s, r.weight);
    }

    /** nghttp2_session_destroy_stream. */
    method Destroy(s: Id)
      requires Valid() && s in links && s != Root
      modifies this
      ensures Valid() && ParentsOf(links) == LeftOut(old(ParentsOf(links)), s) - {s}
      ensures nodes.Keys == old(nodes).Keys - {s} && LeftStreams(old(nodes), nodes, old(ParentsOf(links)), s)
    {
      Leave(s);
      Forget(s);
    }

    /** Frees a stream without links. */
    method Forget(s: Id)
      requires Valid() && s in links && s != Root && links[s] == Unlinked
      modifies this
      ensures Valid() && ParentsOf(links) == old(ParentsOf(links)) - {s} && nodes == old(nodes) - {s}
    {
      GoneIsValid(links, nodes, kids, rank, s);
      Become(links - {s}, nodes - {s}, kids - {s}, rank);
    }

    // ----------------------------------------------------------------- reprioritization

    /** nghttp2_stream_dep_remove_subtree, as a part of moving a subtree. */
    method TakeAway(s: Id)
      requires Valid() && s in links && links[s].depPrev.Some?
      modifies this
      ensures Consistent() && ParentsOf(links) == old(ParentsOf(links))[s := None] && Rooted(ParentsOf(links), kids, {s})
      ensures SameStreams(old(nodes), nodes)
    {
      ghost var p, before := links[s].depPrev.value, nodes;
      DepRemoveSubtree(s);
      TakingKeepsStreams(before, nodes, p, s);
    }

    /** Moves `dep` with all below it to the root. */
    method MoveToRoot(dep: Id)
      requires Valid() && dep in links && dep != Root && links[dep].depPrev.Some?
      modifies this
      ensures Valid() && ParentsOf(links) == old(ParentsOf(links))[dep := Some(Root)] && SameStreams(old(nodes), nodes)
    {
      TakeAway(dep);
      assert ParentsOf(links)[dep].None?;
      TopIsBelowNone(ParentsOf(links), rank, Root, dep);
      PlacedIsRooted(ParentsOf(links), kids, Root, dep, false);
      Place(dep, DefaultPriority);
    }

    /** Moves `s` with all below it where a priority says. */
    method Move(s: Id, pri: Priority)
      requires Valid() && s in links && links[s].depPrev.Some? && 1 <= pri.weight <= 256 && s != Root
      requires pri.dep in links && (pri.dep == Root || links[pri.dep].depPrev.Some?)
      requires !Below(ParentsOf(links), rank, pri.dep, s)
      modifies this
      ensures Valid() && ParentsOf(links) == Placed(old(ParentsOf(links)), s, pri.dep, pri.exclusive)
      ensures SameStreams(WithWeight(old(nodes), s, pri.weight), nodes)
    {
      ghost var par, ranked, before := ParentsOf(links), rank, nodes;
      TakeAway(s);
      JoinAgain(links, nodes, kids, rank, par, ranked, s, pri);
      ghost var taken := nodes;
      nodes := WithWeight(nodes, s, pri.weight);
      Place(s, pri);
      SameThenWeighed(before, taken, nodes, s, pri.weight);
    }

    /** Moves `dep` out of the way if it is below `s`. */
    method Detour(s: Id, dep: Id) returns (ghost cycle: bool)
      requires Valid() && s in links && s != Root && dep in links && dep != s && (dep == Root || links[dep].depPrev.Some?)
      modifies this
      ensures Valid() && SameStreams(old(nodes), nodes) && cycle == Below(old(ParentsOf(links)), old(rank), dep, s)
      ensures ParentsOf(links) == if cycle then old(ParentsOf(links))[dep := Some(Root)] else old(ParentsOf(links))
      ensures dep in links && !Below(ParentsOf(links), rank, dep, s)
    {
      cycle := false;
      if dep == Root {
        TopIsBelowNone(ParentsOf(links), rank, dep, s);
      } else {
        var found := FindAncestor(dep, s);
        if found {
          cycle := true;
          MoveToRoot(dep);
          TopIsBelowNone(ParentsOf(links), rank, dep, s);
        }
      }
    }

    /** Gives `s` a priority that names the root or another stream in the tree. */
    method Redirect(s: Id, pri: Priority) returns (ghost cycle: bool)
      requires Valid() && s in links && links[s].depPrev.Some? && s != Root && 1 <= pri.weight <= 256
      requires pri.dep in links && pri.dep != s && (pri.dep == Root || links[pri.dep].depPrev.Some?)
      modifies this
      ensures Valid() && cycle == Below(old(ParentsOf(links)), old(rank), pri.dep, s)
      ensures ParentsOf(links) == Reprioritized(old(ParentsOf(links)), s, pri.dep, pri.exclusive, cycle)
      ensures SameStreams(WithWeight(old(nodes), s, pri.weight), nodes)
    {
      ghost var par, before := ParentsOf(links), nodes;
      cycle := Detour(s, pri.dep);
      assert ParentsOf(links)[s] == par[s] && ParentsOf(links)[pri.dep].Some? == (pri.dep != Root);
      ghost var moved := nodes;
      Move(s, pri);
      SameThenWeighed(before, moved, nodes, s, pri.weight);
    }

    /**
     * nghttp2_session_reprioritize_stream. A new parent that is below the stream itself is
     * first moved to the root, with all below it; this is what section 5.3.3 of RFC 7540 asks
     * for iff the new parent was not below the stream or the stream was just below the root.
     */
    method Reprioritize(s: Id, pri: Priority, idle: bool) returns (ghost cycle: bool)
      requires Valid() && s in links && s != Root && pri.dep != s && 1 <= pri.weight <= 256
      modifies this
      ensures Valid() && (old(!InTree(links[s])) ==> unchanged(this))
      ensures old(InTree(links[s])) ==>
        var par, r := old(ParentsOf(links)), Effective(old(ParentsOf(links)), pri, idle);
        ParentsOf(links) == RfcReprioritized(WithIdle(par, pri, idle), s, r.dep, r.exclusive, cycle)
        <==> !cycle || par[s] == Some(Root)
      ensures old(InTree(links[s])) ==>
        var par, r := old(ParentsOf(links)), Effective(old(ParentsOf(links)), pri, idle);
        && (cycle <==> r.dep in par && Below(par, old(rank), r.dep, s))
        && ParentsOf(links) == Reprioritized(WithIdle(par, pri, idle), s, r.dep, r.exclusive, cycle)
        && SameStreams(WithWeight(WithIdleNode(old(nodes), pri, idle), s, r.weight), nodes)
    {
      cycle := false;
      InTreeHasParent(links, kids, s);
      if InTree(links[s]) {
        IdleConformsIff(ParentsOf(links), rank, s, pri, idle);
        cycle := Rearrange(s, pri, idle);
      }
    }

    method Rearrange(s: Id, pri: Priority, idle: bool) returns (ghost cycle: bool)
      requires Valid() && s in links && links[s].depPrev.Some? && s != Root && pri.dep != s && 1 <= pri.weight <= 256
      modifies this
      ensures Valid()
      ensures
        var par, r := old(ParentsOf(links)), Effective(old(ParentsOf(links)), pri, idle);
        && (cycle <==> r.dep in par && Below(par, old(rank), r.dep, s))
        && ParentsOf(links) == Reprioritized(WithIdle(par, pri, idle), s, r.dep, r.exclusive, cycle)
        && SameStreams(WithWeight(WithIdleNode(old(nodes), pri, idle), s, r.weight), nodes)
    {
      ghost var par, ranked, before := ParentsOf(links), rank, WithIdleNode(nodes, pri, idle);
      var r := Resolve(pri, idle);
      CycleAsBefore(par, ranked, ParentsOf(links), rank, s, pri, idle);
      assert ParentsOf(links)[s] == par[s];
      ghost var resolved := nodes;
      cycle := Redirect(s, r);
      SameThenWeighed(before, resolved, nodes, s, r.weight);
    }

    // ------------------------------------------------------------------------ selection

    /**
     * nghttp2_stream_next_outbound_item for the root: finds a stream iff any stream in the
     * tree is active, and then one whose way from the root is first in every queue.
     */
    method Next() returns (r: Option<Id>)
      requires Valid()
      ensures r.Some? ==> r.value in nodes && Active(nodes[r.value]) && ChosenWay(nodes, ParentsOf(links), rank, Root, r.value)
      ensures r.Some? <==> exists x :: x in nodes && (InTree(links[x]) || x == Root) && Active(nodes[x])
    {
      ghost var par := ParentsOf(links);
      r := NextOutboundItem(nodes, Root, par, rank, Bound(rank));
      forall x | x in nodes ensures Below(par, rank, x, Root) <==> InTree(links[x]) || x == Root {
        BelowStep(par, rank, x, Root);
        if InTree(links[x]) || x == Root { AllBelowRoot(links, nodes, kids, rank, x); }
      }
    }

    /** reschedule_stream for the stream `Next` found, after `len` octets of it were written. */
    method Served(s: Id, len: nat)
      requires Valid() && s in nodes && ChosenWay(nodes, ParentsOf(links), rank, Root, s)
      modifies this`nodes
      ensures Valid() && Wrote(old(nodes), nodes, ParentsOf(links), rank, Root, Write(s, len))
    {
      ghost var par := ParentsOf(links);
      ChosenIsFirst(nodes, par, rank, Root, s);
      LengthMayChange(nodes, par, rank, s, len);
      var n := Reschedule(WithLength(nodes, s, len), ParentsOf(links), s, par, rank);
      LengthForgotten(nodes, n, par, rank, s, len);
      WeightsUntouched(nodes, n, kids);
      nodes := n;
    }

    /**
     * Choosing a stream and writing from it, over and over: a run of the tree, of all `lens`
     * unless nothing is left to send.  `SendingIsFair` and `SendingStarvesNone` are about it.
     */
    method Send(lens: seq<nat>) returns (ghost states: seq<Nodes>, ghost vs: seq<Write>)
      requires Valid()
      modifies this`nodes
      ensures Valid() && TreeRun(states, ParentsOf(links), rank, Root, vs) && Sending(states, vs, lens)
      ensures states[0] == old(nodes) && states[|vs|] == nodes
      ensures |vs| < |lens| ==> forall x | x in nodes && (InTree(links[x]) || x == Root) :: !Active(nodes[x])
    {
      ghost var par := ParentsOf(links);
      states, vs := [nodes], [];
      for i := 0 to |lens|
        invariant Valid() && |vs| == i && TreeRun(states, par, rank, Root, vs)
        invariant Sending(states, vs, lens) && states[0] == old(nodes) && states[i] == nodes
      {
        var r := Next();
        if r.None? { return; }
        Served(r.value, lens[i]);
        ghost var v := Write(r.value, lens[i]);
        OneMoreWrite(states, par, rank, Root, vs, nodes, v);
        OneMoreSent(states, vs, lens, nodes, v);
        states, vs := states + [nodes], vs + [v];
      }
    }
  }

  /**
   * Over every run of `Send` on a tree, the octets written at and below two streams of one
   * queue are in proportion to their weights.
   */
  lemma SendingIsFair(l: Links, kids: Kids, rank: map<Id, nat>, states: seq<Nodes>, vs: seq<Write>, p: Id, a: Id, b: Id, max: nat)
    requires TreeRun(states, ParentsOf(l), rank, Root, vs) && Tree(l, states[0], kids, rank)
    requires p in states[0] && |states[0][p].obq| > 1 && a in states[0][p].obq && b in states[0][p].obq && a in l && b in l
    requires forall v, x | v in vs && x in states[0][p].obq && x in l :: Stride(v.len, states[0][x].weight) <= max
    ensures forall v | v in vs :: v.stream in ParentsOf(l)
    ensures
      Proportional(FiguresBelow(states[0], ParentsOf(l), rank, vs, a), FiguresBelow(states[0], ParentsOf(l), rank, vs, b), max)
  {
    QueueShares(states[0], ParentsOf(l), rank, p);
    TreeIsFair(states, ParentsOf(l), rank, Root, vs, p, a, b, max);
  }

  /** And no stream of a queue waits longer than the others are behind it. */
  lemma SendingStarvesNone(l: Links, kids: Kids, rank: map<Id, nat>, states: seq<Nodes>, vs: seq<Write>, p: Id, others: seq<Id>, b: Id)
    requires TreeRun(states, ParentsOf(l), rank, Root, vs) && Tree(l, states[0], kids, rank)
    requires p in states[0] && |states[0][p].obq| > 1 && b in states[0][p].obq && b in l
    requires forall x :: x in others <==> x in states[0][p].obq && x != b
    requires forall v | v in vs :: v.stream in l && !Below(ParentsOf(l), rank, v.stream, b) && v.len > 0
    ensures forall x | x in states[0][p].obq :: x in states[0]
    ensures WritesUnder(ParentsOf(l), rank, vs, p) <= Allowance(QueueCycles(states[0], p), others, states[0][b].cycle)
  {
    QueueShares(states[0], ParentsOf(l), rank, p);
    TreeWaitingIsBounded(states, ParentsOf(l), rank, Root, vs, p, others, b);
  }

  // --------------------------------------------------------------------- two short runs

  /** A stream that is nobody's parent has an empty queue. */
  lemma NothingQueued(n: Nodes, par: Parents, s: Id)
    requires Scheduled(n, par, {}) && s in n && forall x | x in par :: par[x] != Some(s)
    ensures n[s].obq == []
  {
    assert QueueOk(n, par, s);
    assert n[s].obq != [] ==> QueuedBelow(n, par, s, n[s].obq[0]);
  }

  /** A priority that names the root or a stream in the tree is taken as it is. */
  lemma TakenAsIs(par: Parents, s: Id, dep: Id)
    requires s !in par && dep in par && (dep == Root || par[dep].Some?)
    ensures
      var pri := Priority(dep, DefaultWeight, false);
      Effective(par, pri, false) == pri && WithIdle(par, pri, false) == par && Placed(par[s := None], s, dep, false) == par[s := Some(dep)]
  {}

  /** A new stream below `dep`. */
  method OpenBelow(t: StreamTree, s: Id, dep: Id)
    requires t.Valid() && s != Root && s !in ParentsOf(t.links)
    requires dep in ParentsOf(t.links) && (dep == Root || ParentsOf(t.links)[dep].Some?)
    modifies t
    ensures t.Valid() && ParentsOf(t.links) == old(ParentsOf(t.links))[s := Some(dep)]
    ensures s in t.nodes && IsNew(t.nodes[s], DefaultWeight)
  {
    TakenAsIs(ParentsOf(t.links), s, dep);
    t.Open(s, Priority(dep, DefaultWeight, false), false);
  }

  method OpenFirst() returns (t: StreamTree)
    ensures fresh(t) && t.Valid() && ParentsOf(t.links) == map[Root := None, 1 := Some(Root)]
    ensures 1 in t.nodes && IsNew(t.nodes[1], DefaultWeight)
  {
    t := new StreamTree();
    OpenBelow(t, 1, Root);
  }

  /** An item of a stream with nobody below it, deferred for no reason. */
  method DeferAlone(t: StreamTree, s: Id)
    requires t.Consistent() && s in t.nodes && t.nodes[s].item && t.nodes[s].deferred == {}
    requires t.links[s].depPrev.Some? && forall x | x in t.links :: t.links[x].depPrev != Some(s)
    modifies t
    ensures s in t.nodes && Active(t.nodes[s]) && !t.Consistent()
  {
    NothingQueued(t.nodes, ParentsOf(t.links), s);
    t.Defer(s, {});
  }

  /** Deferring the item of an only stream for no reason: it is active, and its parent's queue does not know. */
  method DeferForNoReason() returns (t: StreamTree)
    ensures 1 in t.nodes && Active(t.nodes[1]) && !t.Consistent()
  {
    t := OpenFirst();
    assert forall x | x in t.links :: t.links[x].depPrev == ParentsOf(t.links)[x];
    t.Attach(1);
    DeferAlone(t, 1);
  }

  const Chain135: Parents := map[Root := None, 1 := Some(Root), 3 := Some(1), 5 := Some(3)]

  method OpenSecond() returns (t: StreamTree)
    ensures fresh(t) && t.Valid() && ParentsOf(t.links) == map[Root := None, 1 := Some(Root), 3 := Some(1)]
  {
    t := OpenFirst();
    OpenBelow(t, 3, 1);
  }

  method OpenChain() returns (t: StreamTree)
    ensures fresh(t) && t.Valid() && ParentsOf(t.links) == Chain135
  {
    t := OpenSecond();
    OpenBelow(t, 5, 3);
  }

  /** The chain of 1, 3 and 5, opened one after the other, and 3 moved below 5: 5 is now below the root. */
  method MoveBelowOwnChild(exclusive: bool) returns (t: StreamTree)
    ensures t.Valid() && ParentsOf(t.links) == Reprioritized(Chain135, 3, 5, exclusive, true)
    ensures ParentsOf(t.links)[5] == Some(Root) && RfcReprioritized(Chain135, 3, 5, exclusive, true)[5] == Some(1)
  {
    t := OpenChain();
    ghost var par, rank := ParentsOf(t.links), t.rank;
    assert par[3] == t.links[3].depPrev && par[5] == Some(3);
    BelowStep(par, rank, 3, 3);
    BelowStep(par, rank, 5, 3);
    var cycle := t.Reprioritize(3, Priority(5, DefaultWeight, exclusive), false);
  }
}
