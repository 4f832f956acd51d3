/**
 * Which streams are queued for output, and in what order (the obq members and
 * functions of lib/nghttp2_stream.c).  Streams are named by their identifiers; the
 * dependency tree appears here only as the parent of each stream.
 */
module StreamSchedule {
  import opened Bytes
  import opened PriorityQueue

  type Id = nat

  /** Why output of a stream's item is put off. */
  datatype Reason = FlowControl | User

  /** The members of nghttp2_stream that scheduling uses. */
  datatype Node = Node(
    weight: nat,
    sumDepWeight: int,
    item: bool,
    deferred: set<Reason>,
    queued: bool,
    cycle: nat,
    lastCycle: nat,
    lastWriteLen: nat,
    obq: seq<Id>)

  type Nodes = map<Id, Node>

  type Parents = map<Id, Option<Id>>

  /** stream_active. */
  predicate Active(n: Node) { n.item && n.deferred == {} }

  /** stream_subtree_active. */
  predicate SubtreeActive(n: Node) { Active(n) || n.obq != [] }

  /** stream_next_cycle. */
  function NextCycle(n: Node, last: nat): (c: nat)
    requires n.weight > 0
    ensures c >= last
  {
    last + Stride(n.lastWriteLen, n.weight)
  }

  /** How far a write of `len` octets advances a stream of the given weight. */
  function Stride(len: nat, weight: nat): nat
    requires weight > 0
  {
    len * 256 / weight
  }

  // ------------------------------------------------------------------ queue order

  function Cycles(n: Nodes): map<Id, nat> { map x | x in n :: n[x].cycle }

  function CycleIn(k: map<Id, nat>, x: Id): nat { if x in k then k[x] else 0 }

  function Earlier(k: map<Id, nat>): (Id, Id) -> bool 
  {
    (a: Id, b: Id) => CycleIn(k, a) < CycleIn(k, b)
  }

  lemma EarlierIsOrder(k: map<Id, nat>)
    ensures StrictWeakOrder(Earlier(k))
  {}

  predicate Distinct(q: seq<Id>) { forall i, j | 0 <= i < j < |q| :: q[i] != q[j] }

  lemma DistinctByCount(q: seq<Id>, r: seq<Id>)
    requires Distinct(q) && multiset(r) <= multiset(q)
    ensures Distinct(r)
  {
    forall i, j | 0 <= i < j < |r| ensures r[i] != r[j] {
      if r[i] == r[j] {
        TwiceInMultiset(r, i, j);
        OnceInMultiset(q, r[i]);
      }
    }
  }

  lemma TwiceInMultiset(r: seq<Id>, i: nat, j: nat)
    requires i < j < |r| && r[i] == r[j]
    ensures multiset(r)[r[i]] >= 2
  {
    assert r == r[..i] + [r[i]] + r[i + 1..j] + [r[j]] + r[j + 1..];
  }

  lemma {:induction false} OnceInMultiset(q: seq<Id>, x: Id)
    requires Distinct(q)
    ensures multiset(q)[x] <= 1
    decreases |q|
  {
    if q != [] {
      var n := |q| - 1;
      OnceInMultiset(q[..n], x);
      assert q == q[..n] + [q[n]];
      if q[n] == x {
        assert x !in q[..n];
        assert multiset(q[..n])[x] == 0;
      }
    }
  }

  // ------------------------------------------------------------------- invariants

  /** `c` is queued below `p`. */
  predicate QueuedBelow(n: Nodes, par: Parents, p: Id, c: Id)
  {
    c in n && c in par && par[c] == Some(p) && n[c].queued
  }

  /** The queue of `p`: distinct queued children in heap order, none before the last cycle. */
  ghost predicate QueueOk(n: Nodes, par: Parents, p: Id)
    requires p in n
  {
    var q := n[p].obq;
    && Distinct(q) && Heap(q, Earlier(Cycles(n)))
    && (forall i | 0 <= i < |q| :: QueuedBelow(n, par, p, q[i]) && n[p].lastCycle <= n[q[i]].cycle)
  }

  /** A queued stream is in the queue of its parent. */
  predicate InParentsQueue(n: Nodes, par: Parents, c: Id)
    requires c in n && c in par
  {
    n[c].queued ==> par[c].Some? && par[c].value in n && c in n[par[c].value].obq
  }

  /** A stream with a parent is queued iff it or a stream below it has something to send. */
  predicate QueuedIffActive(n: Nodes, par: Parents, x: Id)
    requires x in n && x in par
  {
    par[x].Some? ==> (n[x].queued <==> SubtreeActive(n[x]))
  }

  ghost predicate QueuesOk(n: Nodes, par: Parents) { forall p {:trigger QueueOk(n, par, p)} | p in n :: QueueOk(n, par, p) }

  ghost predicate MembersOk(n: Nodes, par: Parents)
    requires n.Keys == par.Keys
  {
    forall c {:trigger InParentsQueue(n, par, c)} | c in n :: InParentsQueue(n, par, c)
  }

  ghost predicate FlagsOk(n: Nodes, par: Parents, ex: set<Id>)
    requires n.Keys == par.Keys
  {
    forall x {:trigger QueuedIffActive(n, par, x)} | x in n && x !in ex :: QueuedIffActive(n, par, x)
  }

  ghost predicate Related(n: Nodes, par: Parents)
  {
    && n.Keys == par.Keys && (forall x | x in n :: n[x].weight > 0)
    && (forall x | x in par :: par[x].Some? ==> par[x].value in par)
  }

  /** All queues are right, but the streams in `ex` may be queued wrongly or not queued. */
  ghost predicate Scheduled(n: Nodes, par: Parents, ex: set<Id>)
  {
    Related(n, par) && QueuesOk(n, par) && MembersOk(n, par) && FlagsOk(n, par, ex)
  }

  /** Parents are ranked below their children, so the tree has no cycle. */
  predicate Ranked(par: Parents, rank: map<Id, nat>)
  {
    && par.Keys <= rank.Keys
    && (forall x | x in par && par[x].Some? :: par[x].value in rank && rank[par[x].value] < rank[x])
  }

  // -------------------------------------------------------------------- one queue step

  /** Gives `s` the cycle `c` and pushes it onto the queue of `p`. */
  function EnqueuedAt(n: Nodes, p: Id, s: Id, c: nat): Nodes
    requires p in n && s in n
  {
    var m := Marked(n, s, c);
    m[p := m[p].(obq := Push(m[p].obq, Earlier(Cycles(m)), s))]
  }

  function Marked(n: Nodes, s: Id, c: nat): Nodes
    requires s in n
  {
    n[s := n[s].(cycle := c, queued := true)]
  }

  function IndexOf(q: seq<Id>, x: Id): (i: nat)
    requires x in q
    ensures i < |q| && q[i] == x
  {
    if q[0] == x then 0 else 1 + IndexOf(q[1..], x)
  }

  /** Removes `s` from the queue of `p`. */
  function Dequeued(n: Nodes, p: Id, s: Id): Nodes
    requires p in n && s in n && s in n[p].obq && p != s
  {
    TakenFrom(n, p, s, Remove(n[p].obq, Earlier(Cycles(n)), IndexOf(n[p].obq, s)))
  }

  /** `p` has the queue `r`, and `s` is not queued. */
  function TakenFrom(n: Nodes, p: Id, s: Id, r: seq<Id>): Nodes
    requires p in n && s in n && p != s
  {
    n[p := n[p].(obq := r)][s := n[s].(queued := false)]
  }

  lemma SameMembers(q: seq<Id>, r: seq<Id>, x: Id)
    requires multiset(r) == multiset(q) + multiset{x}
    ensures |r| == |q| + 1 && forall c :: c in r <==> c in q || c == x
  {
    assert |multiset(r)| == |multiset(q)| + 1;
    forall c ensures c in r <==> c in q || c == x {
      assert c in r <==> c in multiset(r);
      assert c in q <==> c in multiset(q);
    }
  }

  /** The cycles of queued streams do not change when an unqueued stream's cycle does. */
  lemma HeapUnmoved(q: seq<Id>, k: map<Id, nat>, m: map<Id, nat>)
    requires Heap(q, Earlier(k)) && forall i | 0 <= i < |q| :: CycleIn(k, q[i]) == CycleIn(m, q[i])
    ensures Heap(q, Earlier(m))
  {
    forall i | 0 < i < |q| ensures !Earlier(m)(q[i], q[PriorityQueue.Parent(i)]) {
      assert !Earlier(k)(q[i], q[PriorityQueue.Parent(i)]);
    }
  }

  /** `m` is `n` as far as the queue of `x` is concerned. */
  ghost predicate QueueUntouched(n: Nodes, m: Nodes, x: Id)
    requires x in n
  {
    && x in m && m[x].obq == n[x].obq && m[x].lastCycle <= n[x].lastCycle
    && forall i | 0 <= i < |n[x].obq| && n[x].obq[i] in n ::
         var c := n[x].obq[i];
         c in m && m[c].cycle == n[c].cycle && m[c].queued == n[c].queued
  }

  lemma UntouchedQueueOk(n: Nodes, m: Nodes, par: Parents, x: Id)
    requires x in n && QueueOk(n, par, x) && QueueUntouched(n, m, x)
    ensures QueueOk(m, par, x)
  {
    var q := n[x].obq;
    forall i | 0 <= i < |q|
      ensures CycleIn(Cycles(n), q[i]) == CycleIn(Cycles(m), q[i]) && QueuedBelow(m, par, x, q[i])
    {
      assert QueuedBelow(n, par, x, q[i]);
    }
    HeapUnmoved(q, Cycles(n), Cycles(m));
  }

  lemma NotQueuedElsewhere(n: Nodes, par: Parents, x: Id, s: Id)
    requires x in n && s in n && s in par && QueueOk(n, par, x) && (!n[s].queued || par[s] != Some(x))
    ensures s !in n[x].obq
  {
    forall i | 0 <= i < |n[x].obq| ensures n[x].obq[i] != s {
      assert QueuedBelow(n, par, x, n[x].obq[i]);
    }
  }

  lemma PushSeq(q: seq<Id>, k: map<Id, nat>, s: Id)
    requires Distinct(q) && Heap(q, Earlier(k)) && s !in q
    ensures
      var r := Push(q, Earlier(k), s);
      Distinct(r) && Heap(r, Earlier(k)) && forall c :: c in r <==> c in q || c == s
  {
    EarlierIsOrder(k);
    PushKeepsHeap(q, Earlier(k), s);
    SameMembers(q, Push(q, Earlier(k), s), s);
    DistinctByCount(q + [s], Push(q, Earlier(k), s));
  }

  lemma PushedQueueOk(n: Nodes, par: Parents, p: Id, s: Id, k: nat)
    requires p in n && s in n && p != s && s in par && par[s] == Some(p) && !n[s].queued && n[p].lastCycle <= k
    requires QueueOk(n, par, p)
    ensures QueueOk(EnqueuedAt(n, p, s, k), par, p)
    ensures forall c :: c in EnqueuedAt(n, p, s, k)[p].obq <==> c in n[p].obq || c == s
  {
    var q, m, e := n[p].obq, Marked(n, s, k), EnqueuedAt(n, p, s, k);
    NotQueuedElsewhere(n, par, p, s);
    assert QueueUntouched(n, m, p);
    UntouchedQueueOk(n, m, par, p);
    PushSeq(q, Cycles(m), s);
    assert Cycles(e) == Cycles(m);
    var r := e[p].obq;
    forall i | 0 <= i < |r| ensures QueuedBelow(e, par, p, r[i]) && e[p].lastCycle <= e[r[i]].cycle {
      assert r[i] in r;
      if r[i] != s {
        assert QueuedBelow(m, par, p, q[IndexOf(q, r[i])]);
      }
    }
  }

  /** Pushing an unqueued stream with something to send repairs it; its parent may need repair then. */
  lemma EnqueueKeeps(n: Nodes, par: Parents, p: Id, s: Id, k: nat, ex: set<Id>)
    requires Scheduled(n, par, ex) && p in n && s in n && p != s && par[s] == Some(p)
    requires !n[s].queued && SubtreeActive(n[s]) && n[p].lastCycle <= k
    ensures Scheduled(EnqueuedAt(n, p, s, k), par, ex - {s} + {p})
  {
    var e := EnqueuedAt(n, p, s, k);
    PushedQueueOk(n, par, p, s, k);
    forall x | x in e ensures QueueOk(e, par, x) {
      if x != p { EnqueueElsewhere(n, par, p, s, k, x); }
    }
    EnqueueFlags(n, par, p, s, k, ex);
  }

  lemma EnqueueElsewhere(n: Nodes, par: Parents, p: Id, s: Id, k: nat, x: Id)
    requires Related(n, par) && QueuesOk(n, par) && p in n && s in n && p != s && par[s] == Some(p) && x in n && x != p
    ensures QueueOk(EnqueuedAt(n, p, s, k), par, x)
  {
    assert QueueOk(n, par, x);
    NotQueuedElsewhere(n, par, x, s);
    UntouchedQueueOk(n, EnqueuedAt(n, p, s, k), par, x);
  }

  lemma EnqueueFlags(n: Nodes, par: Parents, p: Id, s: Id, k: nat, ex: set<Id>)
    requires Scheduled(n, par, ex) && p in n && s in n && p != s && par[s] == Some(p)
    requires SubtreeActive(n[s]) && forall c :: c in EnqueuedAt(n, p, s, k)[p].obq <==> c in n[p].obq || c == s
    ensures MembersOk(EnqueuedAt(n, p, s, k), par) && FlagsOk(EnqueuedAt(n, p, s, k), par, ex - {s} + {p})
  {
    var e := EnqueuedAt(n, p, s, k);
    forall c | c in e ensures InParentsQueue(e, par, c) {
      if c != s { assert InParentsQueue(n, par, c); }
    }
    forall x | x in e && x !in ex - {s} + {p} ensures QueuedIffActive(e, par, x) {
      if x != s { assert QueuedIffActive(n, par, x); }
    }
  }

  // ----------------------------------------------------------------------- removal

  lemma RemoveSeq(q: seq<Id>, k: map<Id, nat>, i: nat)
    requires Distinct(q) && Heap(q, Earlier(k)) && i < |q|
    ensures
      var r := Remove(q, Earlier(k), i);
      Distinct(r) && Heap(r, Earlier(k)) && forall c :: c in r <==> c in q && c != q[i]
  {
    var r := Remove(q, Earlier(k), i);
    EarlierIsOrder(k);
    RemoveKeepsHeap(q, Earlier(k), i);
    assert q[i] in multiset(q);
    assert multiset(q) == multiset(r) + multiset{q[i]};
    SameMembers(r, q, q[i]);
    DistinctByCount(q, r);
    OnceInMultiset(q, q[i]);
    assert multiset(r)[q[i]] == 0;
  }

  lemma DequeuedQueueOk(n: Nodes, par: Parents, p: Id, s: Id)
    requires p in n && s in n && p != s && s in n[p].obq && QueueOk(n, par, p)
    ensures QueueOk(Dequeued(n, p, s), par, p)
    ensures forall c :: c in Dequeued(n, p, s)[p].obq <==> c in n[p].obq && c != s
  {
    var q := n[p].obq;
    var r := Remove(q, Earlier(Cycles(n)), IndexOf(q, s));
    RemoveSeq(q, Cycles(n), IndexOf(q, s));
    ShorterQueueOk(n, par, p, s, r);
  }

  lemma ShorterQueueOk(n: Nodes, par: Parents, p: Id, s: Id, r: seq<Id>)
    requires p in n && s in n && p != s && QueueOk(n, par, p) && Distinct(r) && Heap(r, Earlier(Cycles(n)))
    requires forall c :: c in r <==> c in n[p].obq && c != s
    ensures QueueOk(TakenFrom(n, p, s, r), par, p)
  {
    var q, e := n[p].obq, TakenFrom(n, p, s, r);
    assert Cycles(e) == Cycles(n);
    forall i | 0 <= i < |r| ensures QueuedBelow(e, par, p, r[i]) && e[p].lastCycle <= e[r[i]].cycle {
      assert r[i] in r;
      assert QueuedBelow(n, par, p, q[IndexOf(q, r[i])]);
    }
  }

  lemma DequeueElsewhere(n: Nodes, par: Parents, p: Id, s: Id, x: Id)
    requires Related(n, par) && QueuesOk(n, par) && p in n && s in n && p != s && s in n[p].obq && x in n && x != p
    ensures QueueOk(Dequeued(n, p, s), par, x)
  {
    assert QueueOk(n, par, x) && QueueOk(n, par, p);
    assert QueuedBelow(n, par, p, n[p].obq[IndexOf(n[p].obq, s)]);
    NotQueuedElsewhere(n, par, x, s);
    UntouchedQueueOk(n, Dequeued(n, p, s), par, x);
  }

  lemma DequeueFlags(n: Nodes, par: Parents, p: Id, s: Id, ex: set<Id>)
    requires Scheduled(n, par, ex) && p in n && s in n && p != s && s in n[p].obq
    requires forall c :: c in Dequeued(n, p, s)[p].obq <==> c in n[p].obq && c != s
    ensures MembersOk(Dequeued(n, p, s), par) && FlagsOk(Dequeued(n, p, s), par, ex + {s, p})
  {
    var e := Dequeued(n, p, s);
    forall c | c in e ensures InParentsQueue(e, par, c) {
      if c != s { assert InParentsQueue(n, par, c); }
    }
    forall x | x in e && x !in ex + {s, p} ensures QueuedIffActive(e, par, x) {
      assert QueuedIffActive(n, par, x);
    }
  }

  /** Removing a stream from a queue; it and its parent may need repair then. */
  lemma DequeueKeeps(n: Nodes, par: Parents, p: Id, s: Id, ex: set<Id>)
    requires Scheduled(n, par, ex) && p in n && s in n && p != s && s in n[p].obq
    ensures Scheduled(Dequeued(n, p, s), par, ex + {s, p})
  {
    var e := Dequeued(n, p, s);
    assert QueueOk(n, par, p);
    DequeuedQueueOk(n, par, p, s);
    forall x | x in e ensures QueueOk(e, par, x) {
      if x != p { DequeueElsewhere(n, par, p, s, x); }
    }
    DequeueFlags(n, par, p, s, ex);
  }

  /** Members of an unqueued stream that are not its queue, its flags or its weight may change. */
  lemma UnqueuedMayChange(n: Nodes, par: Parents, s: Id, node: Node, ex: set<Id>)
    requires Scheduled(n, par, ex) && s in n && !n[s].queued && !node.queued
    requires node.obq == n[s].obq && node.weight > 0 && node.lastCycle <= n[s].lastCycle
    ensures Scheduled(n[s := node], par, ex + {s})
  {
    var e := n[s := node];
    forall x | x in e ensures QueueOk(e, par, x) {
      assert QueueOk(n, par, x);
      NotQueuedElsewhere(n, par, x, s);
      UntouchedQueueOk(n, e, par, x);
    }
    forall c | c in e ensures InParentsQueue(e, par, c) { assert InParentsQueue(n, par, c); }
    forall x | x in e && x !in ex + {s} ensures QueuedIffActive(e, par, x) { assert QueuedIffActive(n, par, x); }
  }

  /** A stream that is queued as it should be needs no exemption. */
  lemma Settled(n: Nodes, par: Parents, ex: set<Id>, less: set<Id>)
    requires Scheduled(n, par, ex)
    requires forall x | x in ex && x !in less && x in n :: QueuedIffActive(n, par, x)
    ensures Scheduled(n, par, less)
  {
    forall x | x in n && x !in less ensures QueuedIffActive(n, par, x) {}
  }

  /** An unqueued stream may be given another parent. */
  lemma RelinkKeeps(n: Nodes, par: Parents, s: Id, to: Option<Id>, ex: set<Id>)
    requires Scheduled(n, par, ex) && s in n && !n[s].queued && (to.Some? ==> to.value in n)
    ensures Scheduled(n, par[s := to], ex + {s})
  {
    var now := par[s := to];
    forall x | x in n ensures QueueOk(n, now, x) {
      assert QueueOk(n, par, x);
      forall i | 0 <= i < |n[x].obq| ensures QueuedBelow(n, now, x, n[x].obq[i]) {
        assert QueuedBelow(n, par, x, n[x].obq[i]);
      }
    }
    forall c | c in n ensures InParentsQueue(n, now, c) { assert InParentsQueue(n, par, c); }
    forall x | x in n && x !in ex + {s} ensures QueuedIffActive(n, now, x) { assert QueuedIffActive(n, par, x); }
  }

  // ------------------------------------------------------------- the queue functions

  /** Only queue membership, cycles and queues differ. */
  predicate OnlyQueues(n: Nodes, m: Nodes)
  {
    m.Keys == n.Keys &&
    forall x | x in n :: m[x] == n[x].(queued := m[x].queued, cycle := m[x].cycle, obq := m[x].obq)
  }

  /** The recorded parents that an upward walk from `dep` reads are the real ones. */
  predicate TrueUpward(up: Parents, par: Parents, rank: map<Id, nat>, dep: Option<Id>)
    requires Ranked(par, rank)
  {
    dep.Some? ==> dep.value in rank && forall x | x in par && rank[x] <= rank[dep.value] :: x in up && up[x] == par[x]
  }

  /** Streams that were queued still are, at the same cycle. */
  predicate QueuedStay(n: Nodes, m: Nodes)
  {
    forall x | x in n && n[x].queued :: x in m && m[x].queued && m[x].cycle == n[x].cycle
  }

  /** The cycle a stream joins the queue of its parent at: its last write is charged from the parent's last cycle on. */
  ghost predicate JoinedAt(n: Nodes, m: Nodes, par: Parents, x: Id)
    requires x in n && x in m
  {
    && x in par && par[x].Some? && par[x].value in n && n[x].weight > 0
    && m[x].cycle == n[par[x].value].lastCycle + n[x].lastWriteLen * 256 / n[x].weight
  }

  /** A stream that became queued joined so; all others keep their cycles. */
  ghost predicate CycleAfter(n: Nodes, m: Nodes, par: Parents, x: Id)
    requires x in n && x in m
  {
    if n[x].queued || !m[x].queued then m[x].cycle == n[x].cycle else JoinedAt(n, m, par, x)
  }

  ghost predicate Joins(n: Nodes, m: Nodes, par: Parents)
  {
    m.Keys == n.Keys && forall x {:trigger CycleAfter(n, m, par, x)} | x in n :: CycleAfter(n, m, par, x)
  }

  lemma NoneJoins(n: Nodes, par: Parents)
    ensures Joins(n, n, par)
  {}

  /** One more stream joins. */
  lemma OneJoins(n0: Nodes, n: Nodes, par: Parents, p: Id, s: Id)
    requires OnlyQueues(n0, n) && QueuedStay(n0, n) && Joins(n0, n, par) && p in n && s in n && p != s && !n[s].queued
    requires s in par && par[s] == Some(p) && n[s].weight > 0
    ensures Joins(n0, EnqueuedAt(n, p, s, NextCycle(n[s], n[p].lastCycle)), par)
  {
    var m := EnqueuedAt(n, p, s, NextCycle(n[s], n[p].lastCycle));
    forall x | x in n0 ensures CycleAfter(n0, m, par, x) { assert CycleAfter(n0, n, par, x); }
  }

  /** One round of `ObqPush`. */
  lemma PushStep(n: Nodes, up: Parents, par: Parents, rank: map<Id, nat>, p: Id, s: Id, k: nat, ex: set<Id>)
    requires Scheduled(n, par, ex + {s}) && Ranked(par, rank) && s in n && par[s] == Some(p)
    requires !n[s].queued && SubtreeActive(n[s]) && TrueUpward(up, par, rank, Some(p))
    requires p in n && n[p].lastCycle <= k
    ensures
      var m := EnqueuedAt(n, p, s, k);
      Scheduled(m, par, ex + {p}) && SubtreeActive(m[p]) && m[s].queued && OnlyQueues(n, m) && QueuedStay(n, m)
    ensures rank[p] < rank[s] && p in up && up[p] == par[p] && TrueUpward(up, par, rank, up[p])
  {
    EnqueueShape(n, p, s, k);
    PushKeeps(n, par, p, s, k, ex);
  }

  lemma EnqueueShape(n: Nodes, p: Id, s: Id, k: nat)
    requires p in n && s in n && p != s && !n[s].queued
    ensures
      var m := EnqueuedAt(n, p, s, k);
      OnlyQueues(n, m) && QueuedStay(n, m) && m[s].queued && m[p].obq != []
  {}

  lemma PushKeeps(n: Nodes, par: Parents, p: Id, s: Id, k: nat, ex: set<Id>)
    requires Scheduled(n, par, ex + {s}) && s in n && par[s] == Some(p) && p in n && p != s
    requires !n[s].queued && SubtreeActive(n[s]) && n[p].lastCycle <= k
    ensures Scheduled(EnqueuedAt(n, p, s, k), par, ex + {p})
  {
    EnqueueKeeps(n, par, p, s, k, ex + {s});
    WiderExemption(EnqueuedAt(n, p, s, k), par, ex + {s} - {s} + {p}, ex + {p});
  }

  lemma WiderExemption(n: Nodes, par: Parents, ex: set<Id>, more: set<Id>)
    requires Scheduled(n, par, ex) && ex <= more
    ensures Scheduled(n, par, more)
  {}

  /** A stream without parent, or queued with something to send, needs no exemption. */
  lemma OneSettled(n: Nodes, par: Parents, s: Id, ex: set<Id>)
    requires Scheduled(n, par, ex + {s}) && (s in n ==> QueuedIffActive(n, par, s))
    ensures Scheduled(n, par, ex)
  {
    Settled(n, par, ex + {s}, ex);
  }

  lemma OnlyQueuesTwice(a: Nodes, b: Nodes, c: Nodes)
    requires OnlyQueues(a, b) && OnlyQueues(b, c)
    ensures OnlyQueues(a, c)
  {}

  /** Only `start` and streams from `dest` upwards differ. */
  ghost predicate OnlyFrom(n: Nodes, m: Nodes, rank: map<Id, nat>, dest: Option<Id>, start: Id)
    requires dest.Some? ==> dest.value in rank
  {
    m.Keys == n.Keys &&
    forall x | x in n && x != start && x in rank && (dest.None? || rank[x] > rank[dest.value]) :: m[x] == n[x]
  }

  lemma EnqueuedFrom(n0: Nodes, n: Nodes, rank: map<Id, nat>, dest: Option<Id>, start: Id, p: Id, s: Id, c: nat)
    requires dest.Some? && dest.value in rank && OnlyFrom(n0, n, rank, dest, start) && p in n && s in n && p in rank && s in rank
    requires rank[p] <= rank[dest.value] && (s == start || rank[s] <= rank[dest.value])
    ensures OnlyFrom(n0, EnqueuedAt(n, p, s, c), rank, dest, start)
  {}

  /** stream_obq_push: queues `start` below `dest` and, as needed, all streams above it. */
  method ObqPush(n0: Nodes, up: Parents, dest: Option<Id>, start: Id,
                 ghost par: Parents, ghost rank: map<Id, nat>, ghost ex: set<Id>) returns (n: Nodes)
    requires Scheduled(n0, par, ex + {start}) && Ranked(par, rank) && start in n0 && dest == par[start]
    requires TrueUpward(up, par, rank, dest) && SubtreeActive(n0[start])
    ensures Scheduled(n, par, ex) && OnlyQueues(n0, n) && QueuedStay(n0, n) && Joins(n0, n, par)
    ensures dest.Some? ==> n[start].queued
    ensures OnlyFrom(n0, n, rank, dest, start)
  {
    var dep, s := dest, start;
    n := n0;
    NoneJoins(n0, par);
    while dep.Some? && !n[s].queued
      invariant s in n && Scheduled(n, par, ex + {s}) && dep == par[s] && SubtreeActive(n[s])
      invariant TrueUpward(up, par, rank, dep) && OnlyQueues(n0, n) && QueuedStay(n0, n) && Joins(n0, n, par)
      invariant s != start ==> n[start].queued
      invariant s == start || (dest.Some? && rank[s] <= rank[dest.value])
      invariant OnlyFrom(n0, n, rank, dest, start)
      decreases rank[s]
    {
      var p := dep.value;
      var cycle := NextCycle(n[s], n[p].lastCycle);
      PushStep(n, up, par, rank, p, s, cycle, ex);
      OnlyQueuesTwice(n0, n, EnqueuedAt(n, p, s, cycle));
      OneJoins(n0, n, par, p, s);
      EnqueuedFrom(n0, n, rank, dest, start, p, s, cycle);
      n := EnqueuedAt(n, p, s, cycle);
      s, dep := p, up[p];
    }
    OneSettled(n, par, s, ex);
  }

  // ------------------------------------------------------------------------ removal

  /** Only queue membership, cycles, last cycles and queues differ, and no stream became queued. */
  predicate OnlyUnqueued(n: Nodes, m: Nodes)
  {
    m.Keys == n.Keys &&
    forall x | x in n ::
      && m[x] == n[x].(queued := m[x].queued, cycle := m[x].cycle, lastCycle := m[x].lastCycle, obq := m[x].obq)
      && (m[x].queued ==> n[x].queued)
  }

  /** Takes `s` out of the queue of `p` and forgets its cycles. */
  function Unqueued(n: Nodes, p: Id, s: Id): Nodes
    requires p in n && s in n && s in n[p].obq && p != s
  {
    var m := Dequeued(n, p, s);
    m[s := m[s].(cycle := 0, lastCycle := 0)]
  }

  lemma UnqueueKeeps(n: Nodes, par: Parents, p: Id, s: Id, ex: set<Id>)
    requires Scheduled(n, par, ex) && p in n && s in n && p != s && s in n[p].obq
    ensures Scheduled(Unqueued(n, p, s), par, ex + {s, p})
  {
    DequeueKeeps(n, par, p, s, ex);
    var m := Dequeued(n, p, s);
    UnqueuedMayChange(m, par, s, m[s].(cycle := 0, lastCycle := 0), ex + {s, p});
    assert ex + {s, p} + {s} == ex + {s, p};
  }

  lemma UnqueueShape(n: Nodes, p: Id, s: Id)
    requires p in n && s in n && s in n[p].obq && p != s
    ensures
      var m := Unqueued(n, p, s);
      && OnlyUnqueued(n, m) && !m[s].queued && m[s].obq == n[s].obq && m[p].queued == n[p].queued
      && (forall x | x in n && x != p && x != s :: m[x] == n[x])
  {}

  /** One round of `ObqRemove`. */
  lemma RemoveStep(n: Nodes, par: Parents, rank: map<Id, nat>, start: Id, p: Id, s: Id)
    requires Scheduled(n, par, {start, s}) && Ranked(par, rank) && s in n && start in n && par[s] == Some(p) && n[s].queued
    requires rank[s] <= rank[start] && (s != start ==> !SubtreeActive(n[s]))
    ensures p in n && p != s && p != start && s in n[p].obq && rank[p] < rank[s]
    ensures
      var m := Unqueued(n, p, s);
      && Scheduled(m, par, {start, p}) && (par[p].Some? ==> m[p].queued)
      && (SubtreeActive(m[p]) ==> Scheduled(m, par, {start}))
  {
    assert InParentsQueue(n, par, s);
    assert QueuedIffActive(n, par, p);
    UnqueueShape(n, p, s);
    UnqueueKeeps(n, par, p, s, {start, s});
    var m := Unqueued(n, p, s);
    Settled(m, par, {start, s} + {s, p}, {start, p});
    if SubtreeActive(m[p]) {
      Settled(m, par, {start, p}, {start});
    }
  }

  /** A stream that is no longer queued has forgotten its cycles; all others keep theirs. */
  predicate CyclesLeft(n: Nodes, m: Nodes, x: Id)
    requires x in n && x in m
  {
    if m[x].queued == n[x].queued then m[x].cycle == n[x].cycle && m[x].lastCycle == n[x].lastCycle
    else m[x].cycle == 0 && m[x].lastCycle == 0
  }

  predicate Leaves(n: Nodes, m: Nodes)
  {
    m.Keys == n.Keys && forall x {:trigger CyclesLeft(n, m, x)} | x in n :: CyclesLeft(n, m, x)
  }

  lemma NoneLeaves(n: Nodes)
    ensures Leaves(n, n)
  {}

  lemma OneLeaves(n0: Nodes, n: Nodes, p: Id, s: Id)
    requires OnlyUnqueued(n0, n) && Leaves(n0, n) && p in n && s in n && p != s && s in n[p].obq && n[s].queued
    ensures Leaves(n0, Unqueued(n, p, s))
  {
    var m := Unqueued(n, p, s);
    forall x | x in n0 ensures CyclesLeft(n0, m, x) { assert CyclesLeft(n0, n, x); }
  }

  lemma OnlyUnqueuedTwice(a: Nodes, b: Nodes, c: Nodes)
    requires OnlyUnqueued(a, b) && OnlyUnqueued(b, c)
    ensures OnlyUnqueued(a, c)
  {}

  /**
   * stream_obq_remove: takes `start` out of its parent's queue, and every stream above it
   * that has nothing to send any more.
   */
  method ObqRemove(n0: Nodes, up: Parents, start: Id, ghost par: Parents, ghost rank: map<Id, nat>) returns (n: Nodes)
    requires Scheduled(n0, par, {start}) && Ranked(par, rank) && start in n0 && start in up && up[start] == par[start]
    requires TrueUpward(up, par, rank, par[start])
    ensures Scheduled(n, par, {start}) && OnlyUnqueued(n0, n) && !n[start].queued && n[start].obq == n0[start].obq
    ensures Leaves(n0, n)
  {
    n := n0;
    NoneLeaves(n0);
    if !n[start].queued {
      return;
    }
    assert InParentsQueue(n, par, start);
    var dep, s := up[start], start;
    while dep.Some?
      invariant s in n && Scheduled(n, par, {start, s}) && dep == par[s] && (dep.Some? ==> n[s].queued)
      invariant rank[s] <= rank[start] && (s == start ==> n == n0) && (s != start ==> !SubtreeActive(n[s]) && !n[start].queued)
      invariant TrueUpward(up, par, rank, dep) && OnlyUnqueued(n0, n) && n[start].obq == n0[start].obq && Leaves(n0, n)
      decreases rank[s]
    {
      var p := dep.value;
      RemoveStep(n, par, rank, start, p, s);
      UnqueueShape(n, p, s);
      OnlyUnqueuedTwice(n0, n, Unqueued(n, p, s));
      OneLeaves(n0, n, p, s);
      n := Unqueued(n, p, s);
      if SubtreeActive(n[p]) {
        return;
      }
      s, dep := p, up[p];
    }
    Settled(n, par, {start, s}, {start});
  }

  /**
   * stream_obq_move: moves a queued stream from the queue of `src`, its parent so far, to
   * that of `dest`, its parent from now on.
   */
  method ObqMove(n0: Nodes, up: Parents, dest: Id, src: Id, s: Id,
                 ghost par: Parents, ghost rank: map<Id, nat>, ghost ex: set<Id>) returns (n: Nodes)
    requires Scheduled(n0, par, ex) && s in n0 && s !in ex && par[s] == Some(src) && dest in n0 && s != src
    requires Ranked(par[s := Some(dest)], rank) && TrueUpward(up, par[s := Some(dest)], rank, Some(dest))
    ensures Scheduled(n, par[s := Some(dest)], ex + {src}) && OnlyQueues(n0, n)
    ensures forall x | x in n0 && x != s :: n0[x].queued ==> n[x].queued
    ensures n[s].queued == n0[s].queued && MovedTo(n0, n, par, dest, s)
    ensures forall x | x in n0 && x != s && x != src && rank[x] > rank[dest] :: n[x] == n0[x]
  {
    n := n0;
    NoneJoins(n0, par[s := Some(dest)]);
    if !n[s].queued {
      MoveUnqueued(n, par, s, Some(dest), ex);
      WiderExemption(n, par[s := Some(dest)], ex, ex + {src});
      return;
    }
    assert InParentsQueue(n, par, s);
    TakenOut(n, par, src, s, Some(dest), ex);
    DequeueShape(n, src, s);
    n := Dequeued(n, src, s);
    n := ObqPush(n, up, Some(dest), s, par[s := Some(dest)], rank, ex + {src});
    OnlyQueuesTwice(n0, Dequeued(n0, src, s), n);
    MoveJoins(n0, Dequeued(n0, src, s), n, par, dest, s);
  }

  /** A queued stream that moved joined the queue of `dest`; streams above may have joined theirs. */
  ghost predicate MovedTo(n: Nodes, m: Nodes, par: Parents, dest: Id, s: Id)
  {
    && m.Keys == n.Keys && (forall x {:trigger CycleAfter(n, m, par[s := Some(dest)], x)} | x in n && x != s :: CycleAfter(n, m, par[s := Some(dest)], x))
    && (s in n ==> if n[s].queued then JoinedAt(n, m, par[s := Some(dest)], s) else m[s].cycle == n[s].cycle)
  }

  lemma MoveJoins(n0: Nodes, a: Nodes, n: Nodes, par: Parents, dest: Id, s: Id)
    requires OnlyQueues(n0, a) && OnlyQueues(a, n) && s in n0 && n0[s].queued && !a[s].queued && n[s].queued
    requires forall x | x in n0 && x != s :: a[x].queued == n0[x].queued && a[x].cycle == n0[x].cycle
    requires Joins(a, n, par[s := Some(dest)])
    ensures MovedTo(n0, n, par, dest, s)
  {
    var now := par[s := Some(dest)];
    forall x | x in n0 && x != s ensures CycleAfter(n0, n, now, x) { assert CycleAfter(a, n, now, x); }
    assert CycleAfter(a, n, now, s);
  }

  // ----------------------------------------------------- cycles over several such steps

  /** The cycle a stream joined the queue of its parent at, with the weight it has now. */
  ghost predicate JoinedLast(n: Nodes, m: Nodes, par: Parents, x: Id)
    requires x in n && x in m
  {
    && x in par && par[x].Some? && par[x].value in n && m[x].weight > 0
    && m[x].cycle == n[par[x].value].lastCycle + n[x].lastWriteLen * 256 / m[x].weight
  }

  /** A queued stream kept its cycle if it was queued below the same parent, and else joined the queue. */
  ghost predicate SettledCycle(n: Nodes, m: Nodes, was: Parents, par: Parents, x: Id)
    requires x in n && x in m
  {
    m[x].queued ==>
      if n[x].queued && x in was && x in par && par[x] == was[x] then m[x].cycle == n[x].cycle else JoinedLast(n, m, par, x)
  }

  ghost predicate Settles(n: Nodes, m: Nodes, was: Parents, par: Parents)
  {
    m.Keys == n.Keys && forall x {:trigger SettledCycle(n, m, was, par, x)} | x in n :: SettledCycle(n, m, was, par, x)
  }

  /** Last cycles and lengths are the same, and what was queued still is. */
  predicate StillQueued(n: Nodes, m: Nodes)
  {
    m.Keys == n.Keys &&
    forall x | x in n ::
      m[x].lastCycle == n[x].lastCycle && m[x].lastWriteLen == n[x].lastWriteLen && (n[x].queued ==> m[x].queued)
  }

  lemma NothingSettles(n: Nodes, par: Parents)
    requires n.Keys == par.Keys
    ensures Settles(n, n, par, par) && StillQueued(n, n)
  {}

  lemma SettlesPush(n: Nodes, a: Nodes, b: Nodes, was: Parents, par: Parents)
    requires StillQueued(n, a) && Settles(n, a, was, par) && OnlyQueues(a, b) && QueuedStay(a, b) && Joins(a, b, par)
    ensures Settles(n, b, was, par) && StillQueued(n, b)
  {
    forall x | x in n ensures SettledCycle(n, b, was, par, x) {
      assert SettledCycle(n, a, was, par, x) && CycleAfter(a, b, par, x);
    }
  }

  lemma SettlesMove(n: Nodes, a: Nodes, b: Nodes, was: Parents, par: Parents, to: Id, s: Id)
    requires StillQueued(n, a) && Settles(n, a, was, par) && OnlyQueues(a, b) && MovedTo(a, b, par, to, s)
    requires s in n && s in was && was[s] != Some(to) && b[s].queued == a[s].queued
    requires forall x | x in a && x != s && a[x].queued :: b[x].queued
    ensures Settles(n, b, was, par[s := Some(to)]) && StillQueued(n, b)
  {
    var now := par[s := Some(to)];
    forall x | x in n ensures SettledCycle(n, b, was, now, x) {
      assert SettledCycle(n, a, was, par, x);
      assert x != s ==> CycleAfter(a, b, now, x);
    }
  }

  /** A stream that is not queued may change its parent. */
  lemma SettlesRelinked(n: Nodes, a: Nodes, was: Parents, par: Parents, s: Id, to: Option<Id>)
    requires Settles(n, a, was, par) && (s in a ==> !a[s].queued)
    ensures Settles(n, a, was, par[s := to])
  {
    forall x | x in n ensures SettledCycle(n, a, was, par[s := to], x) { assert SettledCycle(n, a, was, par, x); }
  }

  lemma SettlesLeave(n: Nodes, a: Nodes, b: Nodes, was: Parents, par: Parents)
    requires Settles(n, a, was, par) && OnlyUnqueued(a, b) && Leaves(a, b)
    ensures Settles(n, b, was, par)
  {
    forall x | x in n ensures SettledCycle(n, b, was, par, x) {
      assert SettledCycle(n, a, was, par, x) && CyclesLeft(a, b, x);
    }
  }

  /** Sums do not matter; nor does the weight of a stream that is queued as before. */
  lemma SettlesMeasured(n: Nodes, a: Nodes, b: Nodes, was: Parents, par: Parents, s: Id)
    requires StillQueued(n, a) && Settles(n, a, was, par) && OnlyMeasures(a, b)
    requires forall x | x in a :: b[x].lastWriteLen == a[x].lastWriteLen && (x != s ==> b[x].weight == a[x].weight)
    requires s in n ==> a[s].queued == n[s].queued && a[s].cycle == n[s].cycle && s in was && s in par && par[s] == was[s]
    ensures Settles(n, b, was, par) && StillQueued(n, b)
  {
    forall x | x in n ensures SettledCycle(n, b, was, par, x) { assert SettledCycle(n, a, was, par, x); }
  }

  lemma SettlesSummed(n: Nodes, a: Nodes, b: Nodes, was: Parents, par: Parents)
    requires Settles(n, a, was, par) && OnlyMeasures(a, b)
    requires forall x | x in a :: b[x].lastWriteLen == a[x].lastWriteLen && b[x].weight == a[x].weight
    ensures Settles(n, b, was, par)
  {
    forall x | x in n ensures SettledCycle(n, b, was, par, x) { assert SettledCycle(n, a, was, par, x); }
  }

  /** The state before only its sums changed. */
  lemma SettlesFromBefore(n0: Nodes, n: Nodes, m: Nodes, was: Parents, par: Parents)
    requires Settles(n, m, was, par) && OnlyMeasures(n0, n) && forall x | x in n0 :: n[x].lastWriteLen == n0[x].lastWriteLen
    ensures Settles(n0, m, was, par)
  {
    forall x | x in n0 ensures SettledCycle(n0, m, was, par, x) { assert SettledCycle(n, m, was, par, x); }
  }

  lemma MoveUnqueued(n: Nodes, par: Parents, s: Id, to: Option<Id>, ex: set<Id>)
    requires Scheduled(n, par, ex) && s in n && s !in ex && par[s].Some? && !n[s].queued && (to.Some? ==> to.value in n)
    ensures Scheduled(n, par[s := to], ex)
  {
    assert QueuedIffActive(n, par, s);
    RelinkKeeps(n, par, s, to, ex);
    Settled(n, par[s := to], ex + {s}, ex);
  }

  lemma TakenOut(n: Nodes, par: Parents, src: Id, s: Id, to: Option<Id>, ex: set<Id>)
    requires Scheduled(n, par, ex) && s in n && s !in ex && par[s] == Some(src) && src in n && s != src && s in n[src].obq
    requires (to.Some? ==> to.value in n) && n[s].queued
    ensures Scheduled(Dequeued(n, src, s), par[s := to], ex + {src} + {s}) && SubtreeActive(Dequeued(n, src, s)[s])
  {
    assert QueuedIffActive(n, par, s);
    DequeueKeeps(n, par, src, s, ex);
    RelinkKeeps(Dequeued(n, src, s), par, s, to, ex + {s, src});
    assert ex + {s, src} + {s} == ex + {src} + {s};
  }

  lemma DequeueShape(n: Nodes, p: Id, s: Id)
    requires p in n && s in n && s in n[p].obq && p != s
    ensures
      var m := Dequeued(n, p, s);
      && OnlyQueues(n, m) && !m[s].queued && m[s].obq == n[s].obq
      && (forall x | x in n && x != s :: m[x].queued == n[x].queued && m[x].cycle == n[x].cycle)
      && (forall x | x in n && x != p && x != s :: m[x] == n[x])
  {
    TakenShape(n, p, s, Remove(n[p].obq, Earlier(Cycles(n)), IndexOf(n[p].obq, s)));
  }

  lemma TakenShape(n: Nodes, p: Id, s: Id, r: seq<Id>)
    requires p in n && s in n && p != s
    ensures
      var m := TakenFrom(n, p, s, r);
      && OnlyQueues(n, m) && !m[s].queued && m[s].obq == n[s].obq
      && (forall x | x in n && x != s :: m[x].queued == n[x].queued && m[x].cycle == n[x].cycle)
      && (forall x | x in n && x != p && x != s :: m[x] == n[x])
  {}

  // ----------------------------------------------------------------------- service

  /** The queue of `p` after `s`, whose key was raised in place, is removed and pushed again. */
  function Requeue(q: seq<Id>, k: map<Id, nat>, s: Id): seq<Id>
    requires s in q
  {
    Push(Remove(q, Earlier(k), IndexOf(q, s)), Earlier(k), s)
  }

  lemma FilledWithout(q: seq<Id>, i: nat)
    requires Distinct(q) && i < |q|
    ensures q[i] !in Filled(q, i) && forall a | a in Filled(q, i) :: a in q
  {
    FilledMultiset(q, i);
    OnceInMultiset(q, q[i]);
    assert multiset(Filled(q, i))[q[i]] == 0;
    forall a | a in Filled(q, i) ensures a in q { assert a in multiset(Filled(q, i)); }
  }

  lemma OthersAgree(q: seq<Id>, k: map<Id, nat>, m: map<Id, nat>, i: nat)
    requires Distinct(q) && i < |q| && forall x | x in q && x != q[i] :: CycleIn(k, x) == CycleIn(m, x)
    ensures Agree(Filled(q, i), Earlier(k), Earlier(m))
  {
    FilledWithout(q, i);
  }

  /**
   * The source raises the key of a stream before it removes the stream from the queue.  Then
   * the queue stays in order iff the stream is first or last in it, or its replacement
   * happens to move the right way.
   */
  lemma RaisedRemovalIff(q: seq<Id>, k: map<Id, nat>, m: map<Id, nat>, i: nat)
    requires Distinct(q) && Heap(q, Earlier(k)) && i < |q|
    requires forall x | x in q && x != q[i] :: CycleIn(k, x) == CycleIn(m, x)
    ensures
      Heap(Remove(q, Earlier(m), i), Earlier(m)) <==>
        i == 0 || i == |q| - 1 || MayMove(q, Earlier(k), i, CycleIn(m, q[i]) < CycleIn(m, q[|q| - 1]))
  {
    var down := CycleIn(m, q[i]) < CycleIn(m, q[|q| - 1]);
    var r := RemoveBy(q, Earlier(k), i, down);
    OthersAgree(q, k, m, i);
    RemovalAgrees(q, Earlier(k), Earlier(m), i, down);
    RemoveMultiset(q, Earlier(k), i, down);
    FilledMultiset(q, i);
    AgreePermuted(Filled(q, i), r, Earlier(k), Earlier(m));
    EarlierIsOrder(k);
    SameHeap(r, Earlier(k), Earlier(m));
    if i == 0 {
      PopKeepsHeap(q, Earlier(k));
    } else if i == |q| - 1 {
      assert Heap(r, Earlier(k));
    } else {
      RemoveByIff(q, Earlier(k), i, down);
    }
  }

  lemma SameHeap(q: seq<Id>, less: (Id, Id) -> bool, other: (Id, Id) -> bool)
    requires Agree(q, less, other)
    ensures Heap(q, less) <==> Heap(q, other)
  {
    if Heap(q, less) { SameHeapOneWay(q, less, other); }
    if Heap(q, other) { SameHeapOneWay(q, other, less); }
  }

  lemma SameHeapOneWay(q: seq<Id>, less: (Id, Id) -> bool, other: (Id, Id) -> bool)
    requires Agree(q, less, other) && Heap(q, less)
    ensures Heap(q, other)
  {
    forall i | 0 < i < |q| ensures !other(q[i], q[PriorityQueue.Parent(i)]) {
      assert !less(q[i], q[PriorityQueue.Parent(i)]);
      assert q[i] in q && q[PriorityQueue.Parent(i)] in q;
    }
  }

  const SampleQueue: seq<Id> := [0, 1, 2, 3, 4, 5]

  const SampleCycles: map<Id, nat> := map[0 := 0, 1 := 1, 2 := 5, 3 := 2, 4 := 3, 5 := 6]

  /** An order that the source breaks: the second entry's key is raised from 1 to 10. */
  lemma RaisedRemovalBreaks()
    ensures Heap(SampleQueue, Earlier(SampleCycles))
    ensures !Heap(Remove(SampleQueue, Earlier(SampleCycles[1 := 10]), 1), Earlier(SampleCycles[1 := 10]))
  {
    assert Heap(SampleQueue, Earlier(SampleCycles));
    RaisedRemovalIff(SampleQueue, SampleCycles, SampleCycles[1 := 10], 1);
    assert PriorityQueue.Parent(3) == 1 && Earlier(SampleCycles)(SampleQueue[3], SampleQueue[5]);
  }

  lemma RequeueSeq(q: seq<Id>, k: map<Id, nat>, m: map<Id, nat>)
    requires Distinct(q) && Heap(q, Earlier(k)) && q != []
    requires forall x | x in q && x != q[0] :: CycleIn(k, x) == CycleIn(m, x)
    ensures
      var r := Requeue(q, m, q[0]);
      Distinct(r) && Heap(r, Earlier(m)) && |r| == |q| && forall c :: c in r <==> c in q
  {
    var t := Remove(q, Earlier(m), 0);
    RaisedRemovalIff(q, k, m, 0);
    RemoveMultiset(q, Earlier(m), 0, Earlier(m)(q[0], q[|q| - 1]));
    assert q[0] in multiset(q);
    assert multiset(q) == multiset(t) + multiset{q[0]};
    SameMembers(t, q, q[0]);
    DistinctByCount(q, t);
    OnceInMultiset(q, q[0]);
    assert multiset(t)[q[0]] == 0;
    PushSeq(t, m, q[0]);
  }

  lemma TopIsEarliest(n: Nodes, par: Parents, p: Id, c: Id)
    requires p in n && QueueOk(n, par, p) && c in n[p].obq
    ensures n[p].obq[0] in n && c in n && n[n[p].obq[0]].cycle <= n[c].cycle && n[p].lastCycle <= n[n[p].obq[0]].cycle
  {
    var q := n[p].obq;
    var i := IndexOf(q, c);
    EarlierIsOrder(Cycles(n));
    TopIsMinimal(q, Earlier(Cycles(n)), i);
    assert QueuedBelow(n, par, p, q[0]) && QueuedBelow(n, par, p, q[i]);
  }

  /** `p` has the queue `r` and the last cycle `last`, its child `s` the cycle `c`. */
  function Reordered(n: Nodes, p: Id, s: Id, last: nat, c: nat, r: seq<Id>): Nodes
    requires p in n && s in n && p != s
  {
    n[p := n[p].(lastCycle := last, obq := r)][s := n[s].(cycle := c)]
  }

  /** A queue with the same members in a new order. */
  ghost predicate SameQueue(q: seq<Id>, r: seq<Id>) { |r| == |q| && forall x :: x in r <==> x in q }

  lemma ReorderedQueueOk(n: Nodes, par: Parents, p: Id, s: Id, last: nat, c: nat, r: seq<Id>)
    requires p in n && s in n && p != s && QueueOk(n, par, p) && SameQueue(n[p].obq, r) && Distinct(r)
    requires Heap(r, Earlier(Cycles(n)[s := c]))
    requires last <= c && forall x | x in n[p].obq && x != s && x in n :: last <= n[x].cycle
    ensures QueueOk(Reordered(n, p, s, last, c, r), par, p)
  {
    var q, m := n[p].obq, Reordered(n, p, s, last, c, r);
    assert Cycles(m) == Cycles(n)[s := c];
    forall i | 0 <= i < |r| ensures QueuedBelow(m, par, p, r[i]) && m[p].lastCycle <= m[r[i]].cycle {
      assert r[i] in r;
      assert QueuedBelow(n, par, p, q[IndexOf(q, r[i])]);
    }
  }

  lemma ReorderedElsewhere(n: Nodes, par: Parents, p: Id, s: Id, last: nat, c: nat, r: seq<Id>, x: Id)
    requires Related(n, par) && QueuesOk(n, par) && p in n && s in n && p != s && x in n && x != p && s in n[p].obq
    ensures QueueOk(Reordered(n, p, s, last, c, r), par, x)
  {
    assert QueueOk(n, par, x) && QueueOk(n, par, p);
    assert QueuedBelow(n, par, p, n[p].obq[IndexOf(n[p].obq, s)]);
    NotQueuedElsewhere(n, par, x, s);
    UntouchedQueueOk(n, Reordered(n, p, s, last, c, r), par, x);
  }

  lemma ReorderedFlags(n: Nodes, par: Parents, p: Id, s: Id, last: nat, c: nat, r: seq<Id>)
    requires Scheduled(n, par, {}) && p in n && s in n && p != s && s in n[p].obq && SameQueue(n[p].obq, r)
    ensures
      var m := Reordered(n, p, s, last, c, r);
      Related(m, par) && MembersOk(m, par) && FlagsOk(m, par, {})
  {
    var m := Reordered(n, p, s, last, c, r);
    forall x | x in m ensures InParentsQueue(m, par, x) { assert InParentsQueue(n, par, x); }
    forall x | x in m ensures QueuedIffActive(m, par, x) { assert QueuedIffActive(n, par, x); }
  }

  /** Reordering one queue after its stream `s` was served keeps all queues right. */
  lemma ReorderedKeeps(n: Nodes, par: Parents, p: Id, s: Id, last: nat, c: nat, r: seq<Id>)
    requires Scheduled(n, par, {}) && p in n && s in n && p != s && s in n[p].obq && SameQueue(n[p].obq, r)
    requires Distinct(r) && Heap(r, Earlier(Cycles(n)[s := c]))
    requires last <= c && forall x | x in n[p].obq && x != s && x in n :: last <= n[x].cycle
    ensures Scheduled(Reordered(n, p, s, last, c, r), par, {})
  {
    var m := Reordered(n, p, s, last, c, r);
    ReorderedFlags(n, par, p, s, last, c, r);
    assert QueueOk(n, par, p);
    ReorderedQueueOk(n, par, p, s, last, c, r);
    forall x | x in m ensures QueueOk(m, par, x) {
      if x != p { ReorderedElsewhere(n, par, p, s, last, c, r, x); }
    }
  }

  /** Requeueing the first stream of a queue at a later cycle keeps all queues right. */
  lemma RequeueKeeps(n: Nodes, par: Parents, p: Id, s: Id, c: nat)
    requires Scheduled(n, par, {}) && p in n && s in n && p != s && n[p].obq != [] && n[p].obq[0] == s && n[s].cycle <= c
    ensures
      var r := Requeue(n[p].obq, Cycles(n)[s := c], s);
      SameQueue(n[p].obq, r) && Scheduled(Reordered(n, p, s, n[s].cycle, c, r), par, {})
  {
    var q := n[p].obq;
    assert QueueOk(n, par, p);
    RequeueSeq(q, Cycles(n), Cycles(n)[s := c]);
    forall x | x in q && x != s && x in n ensures n[s].cycle <= n[x].cycle { TopIsEarliest(n, par, p, x); }
    ReorderedKeeps(n, par, p, s, n[s].cycle, c, Requeue(q, Cycles(n)[s := c], s));
  }

  /** A queue of one stream starts its count over. */
  lemma LonelyKeeps(n: Nodes, par: Parents, p: Id, s: Id)
    requires Scheduled(n, par, {}) && p in n && s in n && p != s && n[p].obq == [s]
    ensures Scheduled(Reordered(n, p, s, 0, 0, [s]), par, {})
  {
    ReorderedKeeps(n, par, p, s, 0, 0, [s]);
  }

  /** Weights, sums and write lengths do not matter to the queues. */
  predicate OnlyMeasures(n: Nodes, m: Nodes)
  {
    m.Keys == n.Keys &&
    forall x | x in n ::
      && m[x].weight > 0
      && m[x] == n[x].(weight := m[x].weight, sumDepWeight := m[x].sumDepWeight, lastWriteLen := m[x].lastWriteLen)
  }

  lemma MeasuresMayChange(n: Nodes, m: Nodes, par: Parents, ex: set<Id>)
    requires Scheduled(n, par, ex) && OnlyMeasures(n, m)
    ensures Scheduled(m, par, ex)
  {
    forall x | x in m ensures QueueOk(m, par, x) {
      assert QueueOk(n, par, x);
      UntouchedQueueOk(n, m, par, x);
    }
    forall c | c in m ensures InParentsQueue(m, par, c) { assert InParentsQueue(n, par, c); }
    forall x | x in m && x !in ex ensures QueuedIffActive(m, par, x) { assert QueuedIffActive(n, par, x); }
  }

  /** `s` and every stream above it is first in its parent's queue: the stream just chosen. */
  predicate FirstAllTheWay(n: Nodes, par: Parents, rank: map<Id, nat>, s: Id)
    requires Ranked(par, rank) && s in par
    decreases rank[s]
  {
    par[s].None? ||
    (var p := par[s].value;
     p in n && p in par && n[p].obq != [] && n[p].obq[0] == s && FirstAllTheWay(n, par, rank, p))
  }

  lemma {:induction false} FirstStays(n: Nodes, m: Nodes, par: Parents, rank: map<Id, nat>, s: Id)
    requires Ranked(par, rank) && s in par && FirstAllTheWay(n, par, rank, s)
    requires forall x | x in n && x in rank && rank[x] < rank[s] :: x in m && m[x].obq == n[x].obq
    ensures FirstAllTheWay(m, par, rank, s)
    decreases rank[s]
  {
    if par[s].Some? { FirstStays(n, m, par, rank, par[s].value); }
  }

  /** The strides of all streams for a write of `len` octets. */
  function Strides(n: Nodes, len: nat): map<Id, nat>
    requires forall x | x in n :: n[x].weight > 0
  {
    map x | x in n :: Stride(len, n[x].weight)
  }

  /** `s` advanced by `step`, its parent `p` counts from where `s` was and learns the length of the write. */
  predicate ServedAt(n: Nodes, m: Nodes, p: Id, s: Id, step: nat)
    requires p in n && s in n && p in m && s in m
  {
    m[p].lastWriteLen == m[s].lastWriteLen &&
    if |n[p].obq| == 1 then m[p].lastCycle == 0 && m[s].cycle == 0
    else m[p].lastCycle == n[s].cycle && m[s].cycle == n[s].cycle + step
  }

  /** Every stream from `s` up to, but not including, `stop` was served. */
  predicate ServedUpTo(n: Nodes, m: Nodes, par: Parents, rank: map<Id, nat>, s: Id, stop: Id, steps: map<Id, nat>)
    requires Related(n, par) && m.Keys == n.Keys == steps.Keys && Ranked(par, rank) && s in par
    decreases rank[s]
  {
    s == stop ||
    (par[s].Some? && ServedAt(n, m, par[s].value, s, steps[s]) &&
     ServedUpTo(n, m, par, rank, par[s].value, stop, steps))
  }

  /**
   * `s` and every stream above it was served for a write of `len` octets, and no other
   * stream changed.
   */
  ghost predicate WayServed(n: Nodes, m: Nodes, par: Parents, rank: map<Id, nat>, s: Id, len: nat)
    requires Related(n, par) && m.Keys == n.Keys && Ranked(par, rank) && s in par
  {
    && m[s].lastWriteLen == len && m[s].lastCycle == n[s].lastCycle
    && (forall x {:trigger Below(par, rank, s, x)} | x in n && Below(par, rank, s, x) && par[x].Some? ::
          ServedAt(n, m, par[x].value, x, Stride(len, n[x].weight)))
    && (forall x | x in n && !Below(par, rank, s, x) :: m[x] == n[x])
  }

  /** Only cycles, write lengths and the order within queues differ. */
  ghost predicate OnlyOrder(n: Nodes, m: Nodes)
  {
    m.Keys == n.Keys &&
    forall x | x in n ::
      && SameQueue(n[x].obq, m[x].obq)
      && m[x] == n[x].(cycle := m[x].cycle, lastCycle := m[x].lastCycle, lastWriteLen := m[x].lastWriteLen, obq := m[x].obq)
  }

  lemma {:induction false} ServedStays(n: Nodes, a: Nodes, b: Nodes, par: Parents, rank: map<Id, nat>, s: Id, stop: Id,
                                       steps: map<Id, nat>)
    requires Related(n, par) && a.Keys == n.Keys == b.Keys == steps.Keys && Ranked(par, rank) && s in par && stop in par
    requires ServedUpTo(n, a, par, rank, s, stop, steps)
    requires (forall x | x in n && rank[x] > rank[stop] :: b[x] == a[x]) && b[stop].lastCycle == a[stop].lastCycle
    requires b[stop].lastWriteLen == a[stop].lastWriteLen
    ensures ServedUpTo(n, b, par, rank, s, stop, steps)
    decreases rank[s]
  {
    if s != stop {
      StopIsAbove(n, a, par, rank, s, stop, steps);
      ServedStays(n, a, b, par, rank, par[s].value, stop, steps);
    }
  }

  lemma {:induction false} StopIsAbove(n: Nodes, a: Nodes, par: Parents, rank: map<Id, nat>, s: Id, stop: Id,
                                       steps: map<Id, nat>)
    requires Related(n, par) && a.Keys == n.Keys == steps.Keys && Ranked(par, rank) && s in par && stop in par && s != stop
    requires ServedUpTo(n, a, par, rank, s, stop, steps)
    ensures rank[stop] < rank[s] && (par[s].value == stop || rank[stop] < rank[par[s].value])
    decreases rank[s]
  {
    if par[s].value != stop { StopIsAbove(n, a, par, rank, par[s].value, stop, steps); }
  }

  lemma {:induction false} ServedFurther(n: Nodes, m: Nodes, par: Parents, rank: map<Id, nat>, s: Id, stop: Id,
                                         steps: map<Id, nat>)
    requires Related(n, par) && m.Keys == n.Keys == steps.Keys && Ranked(par, rank) && s in par && stop in par
    requires ServedUpTo(n, m, par, rank, s, stop, steps) && par[stop].Some?
    requires ServedAt(n, m, par[stop].value, stop, steps[stop])
    ensures ServedUpTo(n, m, par, rank, s, par[stop].value, steps)
    decreases rank[s]
  {
    if s != stop { ServedFurther(n, m, par, rank, par[s].value, stop, steps); }
  }

  lemma {:induction false} UpToIsWay(n: Nodes, m: Nodes, par: Parents, rank: map<Id, nat>, s: Id, top: Id,
                                     steps: map<Id, nat>, x: Id)
    requires Related(n, par) && m.Keys == n.Keys == steps.Keys && Ranked(par, rank) && s in par && top in par && x in par
    requires ServedUpTo(n, m, par, rank, s, top, steps) && par[top].None? && Below(par, rank, s, x)
    ensures par[x].Some? ==> ServedAt(n, m, par[x].value, x, steps[x])
    decreases rank[s]
  {
    if s != x { UpToIsWay(n, m, par, rank, par[s].value, top, steps, x); }
  }

  /** A stream above another has its parent above that one too. */
  lemma {:induction false} ParentIsAbove(par: Parents, rank: map<Id, nat>, x: Id, y: Id)
    requires Ranked(par, rank) && x in par && y in par && Below(par, rank, x, y) && par[y].Some? && par[y].value in par
    ensures Below(par, rank, x, par[y].value) && rank[y] <= rank[x]
    decreases rank[x]
  {
    if x != y {
      ParentIsAbove(par, rank, par[x].value, y);
    } else {
      assert Below(par, rank, par[y].value, par[y].value);
    }
  }

  /** What one level of rescheduling leaves of the nodes. */
  function LevelServed(n: Nodes, p: Id, s: Id, last: nat, c: nat, r: seq<Id>): Nodes
    requires p in n && s in n && p != s
  {
    var m := Reordered(n, p, s, last, c, r);
    m[p := m[p].(lastWriteLen := m[s].lastWriteLen)]
  }

  lemma LevelShape(n: Nodes, p: Id, s: Id, last: nat, c: nat, r: seq<Id>)
    requires p in n && s in n && p != s && SameQueue(n[p].obq, r)
    ensures
      var m := LevelServed(n, p, s, last, c, r);
      && OnlyOrder(n, m) && m[p].lastCycle == last && m[s].cycle == c && m[p].cycle == n[p].cycle
      && m[s].lastCycle == n[s].lastCycle && m[p].lastWriteLen == m[s].lastWriteLen == n[s].lastWriteLen
      && (forall x | x in n && x != p && x != s :: m[x] == n[x])
  {}

  lemma LevelKeeps(n: Nodes, par: Parents, p: Id, s: Id, last: nat, c: nat, r: seq<Id>)
    requires p in n && s in n && p != s && Scheduled(Reordered(n, p, s, last, c, r), par, {})
    ensures Scheduled(LevelServed(n, p, s, last, c, r), par, {})
  {
    MeasuresMayChange(Reordered(n, p, s, last, c, r), LevelServed(n, p, s, last, c, r), par, {});
  }

  /** The new cycles on one level: zero in a queue of one, else a stride further. */
  method LevelCycles(n: Nodes, p: Id, s: Id, ghost par: Parents) returns (last: nat, c: nat)
    requires p in n && s in n && n[p].obq != [] && n[p].obq[0] == s && QueueOk(n, par, p) && n[s].weight > 0
    ensures
      if |n[p].obq| == 1 then last == 0 && c == 0
      else last == n[s].cycle && c == n[s].cycle + Stride(n[s].lastWriteLen, n[s].weight)
  {
    if |n[p].obq| == 1 {
      last, c := 0, 0;
    } else {
      TopIsEarliest(n, par, p, s);
      last := Max(n[p].lastCycle, n[s].cycle);
      c := NextCycle(n[s], last);
    }
  }

  /** One level of nghttp2_stream_reschedule. */
  method ServeLevel(n: Nodes, p: Id, s: Id, ghost par: Parents) returns (m: Nodes)
    requires Scheduled(n, par, {}) && p in n && s in n && p != s && n[p].obq != [] && n[p].obq[0] == s
    ensures Scheduled(m, par, {}) && OnlyOrder(n, m) && ServedAt(n, m, p, s, Stride(n[s].lastWriteLen, n[s].weight))
    ensures m[p].lastWriteLen == m[s].lastWriteLen == n[s].lastWriteLen && m[p].cycle == n[p].cycle && m[s].lastCycle == n[s].lastCycle
    ensures forall x | x in n && x != p && x != s :: m[x] == n[x]
  {
    assert QueueOk(n, par, p);
    var last, c := LevelCycles(n, p, s, par);
    var r := LevelQueue(n, p, s, last, c, par);
    LevelShape(n, p, s, last, c, r);
    LevelKeeps(n, par, p, s, last, c, r);
    m := LevelServed(n, p, s, last, c, r);
  }

  /** The queue of one level after its first stream advanced to cycle `c`. */
  method LevelQueue(n: Nodes, p: Id, s: Id, last: nat, c: nat, ghost par: Parents) returns (r: seq<Id>)
    requires Scheduled(n, par, {}) && p in n && s in n && p != s && n[p].obq != [] && n[p].obq[0] == s
    requires if |n[p].obq| == 1 then last == 0 && c == 0 else last == n[s].cycle && n[s].cycle <= c
    ensures SameQueue(n[p].obq, r) && Scheduled(Reordered(n, p, s, last, c, r), par, {})
  {
    r := n[p].obq;
    if |r| == 1 {
      assert r == [s];
      LonelyKeeps(n, par, p, s);
    } else {
      RequeueKeeps(n, par, p, s, c);
      r := Requeue(r, Cycles(n)[s := c], s);
    }
  }

  /**
   * nghttp2_stream_reschedule for the stream just chosen: it and every stream above it
   * advance by their stride, no other stream changes, and all queues stay right.
   */
  method Reschedule(n0: Nodes, up: Parents, start: Id, ghost par: Parents, ghost rank: map<Id, nat>) returns (n: Nodes)
    requires Scheduled(n0, par, {}) && Ranked(par, rank) && start in n0 && up == par && FirstAllTheWay(n0, par, rank, start)
    ensures Scheduled(n, par, {}) && OnlyOrder(n0, n) && WayServed(n0, n, par, rank, start, n0[start].lastWriteLen)
  {
    var dep, s := up[start], start;
    n := n0;
    ghost var len := n0[start].lastWriteLen;
    ghost var steps := Strides(n0, len);
    while dep.Some?
      invariant s in n0 && dep == par[s] && Scheduled(n, par, {}) && Climbing(n0, n, par, rank, start, s, len, steps)
      decreases rank[s]
    {
      var p := dep.value;
      ghost var before := n;
      n := ServeLevel(n, p, s, par);
      LevelDone(n0, before, n, par, rank, start, s, p, len, steps);
      s, dep := p, up[p];
    }
    forall x | x in n0 && Below(par, rank, start, x) && par[x].Some?
      ensures ServedAt(n0, n, par[x].value, x, Stride(len, n0[x].weight))
    {
      UpToIsWay(n0, n, par, rank, start, s, steps, x);
    }
  }

  /** The streams below `s` are served, `s` and those above it are not. */
  ghost predicate Climbing(n0: Nodes, n: Nodes, par: Parents, rank: map<Id, nat>, start: Id, s: Id, len: nat,
                           steps: map<Id, nat>)
    requires Related(n0, par) && steps.Keys == n0.Keys && Ranked(par, rank) && start in n0 && s in n0
  {
    && OnlyOrder(n0, n) && FirstAllTheWay(n, par, rank, s) && n[s].lastWriteLen == len && n[s].cycle == n0[s].cycle
    && n[start].lastWriteLen == len && n[start].lastCycle == n0[start].lastCycle && Below(par, rank, start, s) && OnlyOnWay(n0, n, par, rank, start, s)
    && ServedUpTo(n0, n, par, rank, start, s, steps)
  }

  /** Only streams on the way from `start` to `s` differ. */
  ghost predicate OnlyOnWay(n0: Nodes, n: Nodes, par: Parents, rank: map<Id, nat>, start: Id, s: Id)
    requires Related(n0, par) && n.Keys == n0.Keys && Ranked(par, rank) && start in n0 && s in n0
  {
    forall x {:trigger n[x]} | x in n0 && (rank[x] < rank[s] || !Below(par, rank, start, x)) :: n[x] == n0[x]
  }

  lemma OneStepUp(n0: Nodes, a: Nodes, b: Nodes, par: Parents, rank: map<Id, nat>, start: Id, s: Id, p: Id)
    requires Related(n0, par) && a.Keys == n0.Keys == b.Keys && Ranked(par, rank) && s in n0 && start in n0 && p in n0
    requires rank[p] < rank[s] && Below(par, rank, start, s) && Below(par, rank, start, p)
    requires OnlyOnWay(n0, a, par, rank, start, s) && forall x | x in a && x != p && x != s :: b[x] == a[x]
    ensures OnlyOnWay(n0, b, par, rank, start, p)
  {
    forall x | x in n0 && (rank[x] < rank[p] || !Below(par, rank, start, x)) ensures b[x] == n0[x] {
      assert x != p && x != s && a[x] == n0[x];
    }
  }

  lemma OnlyOrderTwice(a: Nodes, b: Nodes, c: Nodes)
    requires OnlyOrder(a, b) && OnlyOrder(b, c)
    ensures OnlyOrder(a, c)
  {}

  lemma LevelDone(n0: Nodes, a: Nodes, b: Nodes, par: Parents, rank: map<Id, nat>, start: Id, s: Id, p: Id, len: nat,
                  steps: map<Id, nat>)
    requires Related(n0, par) && Ranked(par, rank) && s in n0 && start in n0 && par[s] == Some(p) && p in n0
    requires steps.Keys == n0.Keys && Climbing(n0, a, par, rank, start, s, len, steps)
    requires OnlyOrder(a, b) && ServedAt(a, b, p, s, steps[s])
    requires b[s].lastCycle == a[s].lastCycle && b[p].lastWriteLen == b[s].lastWriteLen == len && b[p].cycle == a[p].cycle
    requires forall x | x in a && x != p && x != s :: b[x] == a[x]
    ensures Climbing(n0, b, par, rank, start, p, len, steps)
  {
    ParentIsAbove(par, rank, start, s);
    OneStepUp(n0, a, b, par, rank, start, s, p);
    assert OnlyOrder(n0, b) by { OnlyOrderTwice(n0, a, b); }
    FirstStays(a, b, par, rank, p);
    WayGoesOn(n0, a, b, par, rank, start, s, p, steps);
  }

  lemma WayGoesOn(n0: Nodes, a: Nodes, b: Nodes, par: Parents, rank: map<Id, nat>, start: Id, s: Id, p: Id,
                  steps: map<Id, nat>)
    requires Related(n0, par) && Ranked(par, rank) && s in n0 && start in n0 && par[s] == Some(p) && p in n0
    requires steps.Keys == n0.Keys == a.Keys == b.Keys && ServedUpTo(n0, a, par, rank, start, s, steps)
    requires ServedAt(n0, b, p, s, steps[s])
    requires b[s].lastCycle == a[s].lastCycle && b[s].lastWriteLen == a[s].lastWriteLen
    requires forall x | x in a && x != p && x != s :: b[x] == a[x]
    ensures ServedUpTo(n0, b, par, rank, start, p, steps)
  {
    ServedStays(n0, a, b, par, rank, start, s, steps);
    ServedFurther(n0, b, par, rank, start, s, steps);
  }

  // ---------------------------------------------------------------------- selection

  /** `x` is `top` or below it. */
  predicate Below(par: Parents, rank: map<Id, nat>, x: Id, top: Id)
    requires Ranked(par, rank) && x in par
    decreases rank[x]
  {
    x == top || (par[x].Some? && par[x].value in par && Below(par, rank, par[x].value, top))
  }

  /** Something to send anywhere below `top` is known at `top`. */
  lemma {:induction false} ActivityRises(n: Nodes, par: Parents, rank: map<Id, nat>, x: Id, top: Id)
    requires Scheduled(n, par, {}) && Ranked(par, rank) && x in n && top in n
    requires Below(par, rank, x, top) && SubtreeActive(n[x])
    ensures SubtreeActive(n[top])
    decreases rank[x]
  {
    if x != top {
      assert QueuedIffActive(n, par, x) && InParentsQueue(n, par, x);
      ActivityRises(n, par, rank, par[x].value, top);
    }
  }

  /** Every stream from below `top` to `x` is first in its parent's queue, and no parent is active. */
  predicate ChosenWay(n: Nodes, par: Parents, rank: map<Id, nat>, top: Id, x: Id)
    requires Ranked(par, rank) && x in par
    decreases rank[x]
  {
    x == top ||
    (par[x].Some? &&
     var p := par[x].value;
     p in par && p in n && !Active(n[p]) && n[p].obq != [] && n[p].obq[0] == x && ChosenWay(n, par, rank, top, p))
  }

  lemma {:induction false} ChosenIsBelow(n: Nodes, par: Parents, rank: map<Id, nat>, top: Id, x: Id)
    requires Ranked(par, rank) && x in par && ChosenWay(n, par, rank, top, x)
    ensures Below(par, rank, x, top)
    decreases rank[x]
  {
    if x != top { ChosenIsBelow(n, par, rank, top, par[x].value); }
  }

  /**
   * nghttp2_stream_next_outbound_item: finds a stream iff some stream below `top` is active;
   * the stream found is active and on the way that always takes the earliest child, and no
   * stream above it is active.
   */
  method NextOutboundItem(n: Nodes, top: Id, ghost par: Parents, ghost rank: map<Id, nat>, ghost bound: nat)
    returns (r: Option<Id>)
    requires Scheduled(n, par, {}) && Ranked(par, rank) && top in n
    requires forall x | x in rank :: rank[x] <= bound
    ensures r.Some? ==> r.value in n && Active(n[r.value]) && ChosenWay(n, par, rank, top, r.value)
    ensures r.Some? <==> exists x :: x in n && Below(par, rank, x, top) && Active(n[x])
  {
    var s := top;
    while true
      invariant s in n && ChosenWay(n, par, rank, top, s)
      invariant s != top ==> SubtreeActive(n[s])
      decreases bound - rank[s]
    {
      if Active(n[s]) {
        ChosenIsBelow(n, par, rank, top, s);
        return Some(s);
      }
      if n[s].obq == [] {
        NothingBelow(n, par, rank, top);
        return None;
      }
      var c := n[s].obq[0];
      assert QueueOk(n, par, s);
      assert QueuedBelow(n, par, s, c) && QueuedIffActive(n, par, c);
      s := c;
    }
  }

  lemma NothingBelow(n: Nodes, par: Parents, rank: map<Id, nat>, top: Id)
    requires Scheduled(n, par, {}) && Ranked(par, rank) && top in n && !SubtreeActive(n[top])
    ensures !exists x :: x in n && Below(par, rank, x, top) && Active(n[x])
  {
    forall x | x in n && Below(par, rank, x, top) ensures !Active(n[x]) {
      if Active(n[x]) { ActivityRises(n, par, rank, x, top); }
    }
  }

  /** On the chosen way every stream has the least cycle among its queued siblings. */
  lemma ChosenIsEarliest(n: Nodes, par: Parents, rank: map<Id, nat>, top: Id, x: Id, sibling: Id)
    requires Scheduled(n, par, {}) && Ranked(par, rank) && x in n && x != top && ChosenWay(n, par, rank, top, x)
    requires sibling in n && par[sibling] == par[x] && n[sibling].queued
    ensures n[x].cycle <= n[sibling].cycle
  {
    var p := par[x].value;
    assert InParentsQueue(n, par, sibling) && QueueOk(n, par, p);
    TopIsEarliest(n, par, p, sibling);
  }

  /** The stream chosen below a root is the one `Reschedule` is for. */
  lemma {:induction false} ChosenIsFirst(n: Nodes, par: Parents, rank: map<Id, nat>, top: Id, x: Id)
    requires Ranked(par, rank) && x in par && top in par && par[top].None? && ChosenWay(n, par, rank, top, x)
    ensures FirstAllTheWay(n, par, rank, x)
    decreases rank[x]
  {
    if x != top { ChosenIsFirst(n, par, rank, top, par[x].value); }
  }
}
