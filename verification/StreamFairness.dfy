/**
 * Weighted sharing among the queued children of one stream (stream_next_cycle and
 * nghttp2_stream_reschedule of lib/nghttp2_stream.c): the child with the least cycle
 * is served and advances by its stride.
 */
module StreamFairness {
  import opened Bytes
  import opened StreamSchedule

  type Cycles = map<Id, nat>

  type Weights = map<Id, nat>

  /** A child wrote `len` octets. */
  datatype Service = Service(child: Id, len: nat)

  /** The child may be chosen: no other one has a smaller cycle. */
  predicate MayServe(c: Cycles, x: Id) { x in c && forall y | y in c :: c[x] <= c[y] }

  predicate GoodWeights(c: Cycles, w: Weights) { c.Keys <= w.Keys && forall x | x in c :: 0 < w[x] <= 256 }

  function Step(w: Weights, v: Service): nat
    requires v.child in w && w[v.child] > 0
  {
    Stride(v.len, w[v.child])
  }

  function After(c: Cycles, w: Weights, v: Service): (d: Cycles)
    requires GoodWeights(c, w) && v.child in c
    ensures d.Keys == c.Keys
  {
    c[v.child := c[v.child] + Step(w, v)]
  }

  /** Every service of the run goes to a child with the least cycle at that time. */
  predicate Run(c: Cycles, w: Weights, run: seq<Service>)
    requires GoodWeights(c, w)
    decreases |run|
  {
    run == [] || (MayServe(c, run[0].child) && Run(After(c, w, run[0]), w, run[1..]))
  }

  function Final(c: Cycles, w: Weights, run: seq<Service>): (d: Cycles)
    requires GoodWeights(c, w) && Run(c, w, run)
    ensures d.Keys == c.Keys
    decreases |run|
  {
    if run == [] then c else Final(After(c, w, run[0]), w, run[1..])
  }

  /** The service `x` received, in units of virtual time. */
  function Virtual(w: Weights, run: seq<Service>, x: Id): nat
    requires x in w && w[x] > 0
  {
    if run == [] then 0
    else (if run[0].child == x then Step(w, run[0]) else 0) + Virtual(w, run[1..], x)
  }

  /** A cycle is its initial value and the service received since. */
  lemma {:induction false} CycleCountsService(c: Cycles, w: Weights, run: seq<Service>, x: Id)
    requires GoodWeights(c, w) && Run(c, w, run) && x in c
    ensures Final(c, w, run)[x] == c[x] + Virtual(w, run, x)
    decreases |run|
  {
    if run != [] { CycleCountsService(After(c, w, run[0]), w, run[1..], x); }
  }

  /** No service of the run exceeds `max` units. */
  predicate Limited(w: Weights, run: seq<Service>, max: nat)
  {
    forall i | 0 <= i < |run| :: run[i].child in w && w[run[i].child] > 0 && Step(w, run[i]) <= max
  }

  lemma {:induction false} LeadIsBounded(c: Cycles, w: Weights, run: seq<Service>, a: Id, b: Id, max: nat)
    requires GoodWeights(c, w) && Run(c, w, run) && Limited(w, run, max) && a in c && b in c
    ensures Final(c, w, run)[a] - Final(c, w, run)[b] <= Max(c[a] as int - c[b], max)
    decreases |run|
  {
    if run != [] {
      var d := After(c, w, run[0]);
      assert Step(w, run[0]) <= max;
      assert d[a] - d[b] <= Max(c[a] as int - c[b], max);
      LeadIsBounded(d, w, run[1..], a, b, max);
    }
  }

  /**
   * Weighted fairness: over every run, initial cycle and virtual service together of two
   * queued siblings stay apart by no more than the larger of one step and their initial
   * distance, in the direction of that distance.
   */
  lemma ServiceIsFair(c: Cycles, w: Weights, run: seq<Service>, a: Id, b: Id, max: nat)
    requires GoodWeights(c, w) && Run(c, w, run) && Limited(w, run, max) && a in c && b in c
    ensures
      var gap := (c[a] + Virtual(w, run, a)) - (c[b] + Virtual(w, run, b));
      -Max(c[b] as int - c[a], max) <= gap <= Max(c[a] as int - c[b], max)
  {
    CycleCountsService(c, w, run, a);
    CycleCountsService(c, w, run, b);
    LeadIsBounded(c, w, run, a, b, max);
    LeadIsBounded(c, w, run, b, a, max);
  }

  // ------------------------------------------------------------------------- octets

  function Octets(run: seq<Service>, x: Id): nat
  {
    if run == [] then 0 else (if run[0].child == x then run[0].len else 0) + Octets(run[1..], x)
  }

  function Count(run: seq<Service>, x: Id): nat
  {
    if run == [] then 0 else (if run[0].child == x then 1 else 0) + Count(run[1..], x)
  }

  lemma StrideBounds(len: nat, weight: nat)
    requires weight > 0
    ensures weight * Stride(len, weight) <= len * 256 <= weight * Stride(len, weight) + weight
  {
    assert len * 256 == weight * (len * 256 / weight) + len * 256 % weight;
  }

  /** `n` writes of `o` octets were `v` units of virtual service, each rounded down. */
  predicate Tracks(w: nat, v: nat, o: nat, n: nat) { w * v <= 256 * o <= w * (v + n) }

  /** Octets written are in proportion to weight and virtual service, up to one unit a write. */
  lemma {:induction false} OctetsFollowWeight(w: Weights, run: seq<Service>, x: Id)
    requires x in w && w[x] > 0
    ensures Tracks(w[x], Virtual(w, run, x), Octets(run, x), Count(run, x))
    decreases |run|
  {
    if run != [] {
      OctetsFollowWeight(w, run[1..], x);
      if run[0].child == x {
        StrideBounds(run[0].len, w[x]);
        Distribute(w[x], Step(w, run[0]), Virtual(w, run[1..], x), Count(run[1..], x));
      }
    }
  }

  lemma Distribute(w: nat, s: nat, v: nat, n: nat)
    ensures w * (s + v) == w * s + w * v
    ensures w * (s + v + (1 + n)) == w * s + w + w * (v + n)
  {}

  /** How far `a` can get ahead of `b`, from their initial cycles on. */
  function Lead(a: nat, b: nat, max: nat): int { Max(a as int - b, max) + b - a }

  /** A child of cycle `c` and weight `w` that wrote `o` octets in `n` writes. */
  datatype Figures = Figures(c: nat, w: nat, o: nat, n: nat)

  function FiguresOf(c: Cycles, w: Weights, run: seq<Service>, x: Id): Figures
    requires x in c && x in w
  {
    Figures(c[x], w[x], Octets(run, x), Count(run, x))
  }

  /** The octets are in proportion to the weights, up to a lead and one unit for each write. */
  predicate Proportional(a: Figures, b: Figures, max: nat)
  {
    256 * (a.o * b.w - b.o * a.w) <= a.w * b.w * (Lead(a.c, b.c, max) + a.n)
  }

  /** The octets of two siblings are in proportion to their weights. */
  lemma OctetsAreFair(c: Cycles, w: Weights, run: seq<Service>, a: Id, b: Id, max: nat)
    requires GoodWeights(c, w) && Run(c, w, run) && Limited(w, run, max) && a in c && b in c
    ensures Proportional(FiguresOf(c, w, run, a), FiguresOf(c, w, run, b), max)
  {
    var va, vb := Virtual(w, run, a), Virtual(w, run, b);
    assert va - vb <= Lead(c[a], c[b], max) by { ServiceIsFair(c, w, run, a, b, max); }
    OctetsFollowWeight(w, run, a);
    OctetsFollowWeight(w, run, b);
    InProportion(FiguresOf(c, w, run, a), FiguresOf(c, w, run, b), va, vb, max);
  }

  lemma InProportion(a: Figures, b: Figures, va: nat, vb: nat, max: nat)
    requires va - vb <= Lead(a.c, b.c, max) && Tracks(a.w, va, a.o, a.n) && Tracks(b.w, vb, b.o, b.n)
    ensures Proportional(a, b, max)
  {
    CrossMultiply(a.w, b.w, va, vb, a.o, b.o, a.n, Lead(a.c, b.c, max));
  }

  lemma CrossMultiply(wa: nat, wb: nat, va: nat, vb: nat, oa: nat, ob: nat, na: nat, lead: int)
    requires va - vb <= lead && 256 * oa <= wa * (va + na) && wb * vb <= 256 * ob
    ensures 256 * (oa * wb - ob * wa) <= wa * wb * (lead + na)
  {
    Scale(wb, 256 * oa, wa * (va + na));
    Scale(wa, wb * vb, 256 * ob);
    Scale(wa * wb, va + na, vb + lead + na);
    assert wb * (wa * (va + na)) == wa * wb * (va + na);
    assert wa * wb * (vb + lead + na) == wa * (wb * vb) + wa * wb * (lead + na);
  }

  lemma Scale(k: nat, x: int, y: int)
    requires x <= y
    ensures k * x <= k * y
  {}

  // --------------------------------------------------------------------- no starvation

  /** How often the children in `kids` can be served before their cycles pass `limit`. */
  function Allowance(c: Cycles, kids: seq<Id>, limit: nat): nat
    requires forall x | x in kids :: x in c
  {
    if kids == [] then 0
    else Allowance(c, kids[..|kids| - 1], limit) + Max(0, limit + 1 - c[kids[|kids| - 1]])
  }

  lemma {:induction false} AllowanceShrinks(c: Cycles, d: Cycles, kids: seq<Id>, limit: nat, x: Id)
    requires (forall y | y in kids :: y in c && y in d) && x in c && x in d && d == c[x := d[x]] && c[x] < d[x] && c[x] <= limit
    ensures Allowance(d, kids, limit) <= Allowance(c, kids, limit)
    ensures x in kids ==> Allowance(d, kids, limit) < Allowance(c, kids, limit)
    decreases |kids|
  {
    if kids != [] {
      var rest := kids[..|kids| - 1];
      AllowanceShrinks(c, d, rest, limit, x);
      assert x in kids ==> x in rest || x == kids[|kids| - 1];
    }
  }

  lemma EveryWriteAdvances(len: nat, weight: nat)
    requires len > 0 && 0 < weight <= 256
    ensures Stride(len, weight) >= 1
  {
    assert len * 256 >= weight;
  }

  /**
   * No starvation: while `b` waits and every write is of at least one octet, the others can
   * be served only as often as their cycles stay at or below the cycle of `b`.
   */
  lemma {:induction false} WaitingIsBounded(c: Cycles, w: Weights, run: seq<Service>, kids: seq<Id>, b: Id)
    requires GoodWeights(c, w) && Run(c, w, run) && b in c && (forall x :: x in kids <==> x in c && x != b)
    requires forall i | 0 <= i < |run| :: run[i].child != b && run[i].len > 0
    ensures |run| <= Allowance(c, kids, c[b])
    decreases |run|
  {
    if run != [] {
      var x := run[0].child;
      EveryWriteAdvances(run[0].len, w[x]);
      AllowanceShrinks(c, After(c, w, run[0]), kids, c[b], x);
      WaitingIsBounded(After(c, w, run[0]), w, run[1..], kids, b);
    }
  }

  // ------------------------------------------------------ the queues do exactly this

  function QueueCycles(n: Nodes, p: Id): Cycles
    requires p in n && forall x | x in n[p].obq :: x in n
  {
    map x | x in n[p].obq :: n[x].cycle
  }

  function QueueWeights(n: Nodes): Weights { map x | x in n :: n[x].weight }

  lemma QueueMembers(n: Nodes, par: Parents, rank: map<Id, nat>, p: Id)
    requires Scheduled(n, par, {}) && Ranked(par, rank) && p in n && n[p].obq != []
    ensures n[p].obq[0] in n && forall x | x in n[p].obq :: x in n && x != p && n[n[p].obq[0]].cycle <= n[x].cycle
  {
    var q := n[p].obq;
    assert QueueOk(n, par, p);
    assert QueuedBelow(n, par, p, q[0]);
    forall x | x in q ensures x in n && x != p && q[0] in n && n[q[0]].cycle <= n[x].cycle {
      assert QueuedBelow(n, par, p, q[IndexOf(q, x)]);
      TopIsEarliest(n, par, p, x);
    }
  }

  // ------------------------------------------------------------------ one write in a tree

  /** A stream wrote `len` octets. */
  datatype Write = Write(stream: Id, len: nat)

  /** The stream was the one to choose below `root`, and it and the streams above it were served. */
  ghost predicate Wrote(n: Nodes, m: Nodes, par: Parents, rank: map<Id, nat>, root: Id, v: Write)
  {
    && Scheduled(n, par, {}) && Scheduled(m, par, {}) && Ranked(par, rank) && OnlyOrder(n, m)
    && root in par && par[root].None? && v.stream in par && ChosenWay(n, par, rank, root, v.stream)
    && WayServed(n, m, par, rank, v.stream, v.len)
  }

  /** `x` lies below `p` and is not `p`. */
  predicate Under(par: Parents, rank: map<Id, nat>, x: Id, p: Id)
    requires Ranked(par, rank) && x in par
  {
    x != p && Below(par, rank, x, p)
  }

  /** The child of `p` on the way to `x`. */
  function Toward(par: Parents, rank: map<Id, nat>, p: Id, x: Id): (c: Id)
    requires Ranked(par, rank) && x in par && Under(par, rank, x, p)
    ensures c in par && par[c] == Some(p) && Below(par, rank, x, c)
    decreases rank[x]
  {
    if par[x] == Some(p) then x else Toward(par, rank, p, par[x].value)
  }

  /** It is the only child of `p` that `x` lies below. */
  lemma {:induction false} OneChildToward(par: Parents, rank: map<Id, nat>, p: Id, x: Id, c: Id)
    requires Ranked(par, rank) && x in par && c in par && p in par && par[c] == Some(p) && Below(par, rank, x, c)
    ensures Under(par, rank, x, p) && Toward(par, rank, p, x) == c
    decreases rank[x]
  {
    ParentIsAbove(par, rank, x, c);
    if x != c {
      OneChildToward(par, rank, p, par[x].value, c);
    }
  }

  /** The way to the chosen stream takes the first child of every queue it passes. */
  lemma {:induction false} FirstIsToward(n: Nodes, par: Parents, rank: map<Id, nat>, p: Id, x: Id)
    requires Ranked(par, rank) && x in par && p in n && Under(par, rank, x, p) && FirstAllTheWay(n, par, rank, x)
    ensures n[p].obq != [] && n[p].obq[0] == Toward(par, rank, p, x)
    decreases rank[x]
  {
    if par[x] != Some(p) { FirstIsToward(n, par, rank, p, par[x].value); }
  }

  /** The queue of `p` is of several streams with weights that are allowed. */
  ghost predicate Shares(n: Nodes, par: Parents, p: Id)
  {
    && Scheduled(n, par, {}) && p in n && |n[p].obq| > 1 && (forall x | x in n :: n[x].weight <= 256)
    && (forall x | x in n[p].obq :: x in n && x != p)
  }

  lemma QueueShares(n: Nodes, par: Parents, rank: map<Id, nat>, p: Id)
    requires Scheduled(n, par, {}) && Ranked(par, rank) && p in n && |n[p].obq| > 1 && forall x | x in n :: n[x].weight <= 256
    ensures Shares(n, par, p) && GoodWeights(QueueCycles(n, p), QueueWeights(n))
  {
    QueueMembers(n, par, rank, p);
  }

  /** A write elsewhere leaves the queue of `p` as it is, but perhaps in another order. */
  lemma WriteElsewhere(n: Nodes, m: Nodes, par: Parents, rank: map<Id, nat>, root: Id, v: Write, p: Id)
    requires Wrote(n, m, par, rank, root, v) && Shares(n, par, p) && !Under(par, rank, v.stream, p)
    ensures Shares(m, par, p) && QueueCycles(m, p) == QueueCycles(n, p) && QueueWeights(m) == QueueWeights(n)
  {
    assert QueueOk(n, par, p) && SameQueue(n[p].obq, m[p].obq);
    forall x | x in n[p].obq ensures m[x] == n[x] {
      assert QueuedBelow(n, par, p, n[p].obq[IndexOf(n[p].obq, x)]);
      if Below(par, rank, v.stream, x) { OneChildToward(par, rank, p, v.stream, x); }
    }
    assert QueueCycles(m, p).Keys == QueueCycles(n, p).Keys;
  }

  /** A write below `p` is a service of its queue: of the child on the way, which has the least cycle. */
  lemma WriteIsService(n: Nodes, m: Nodes, par: Parents, rank: map<Id, nat>, root: Id, v: Write, p: Id)
    requires Wrote(n, m, par, rank, root, v) && Shares(n, par, p) && Under(par, rank, v.stream, p)
    ensures Shares(m, par, p) && GoodWeights(QueueCycles(n, p), QueueWeights(n))
    ensures
      var c, served := QueueCycles(n, p), Service(Toward(par, rank, p, v.stream), v.len);
      && MayServe(c, served.child) && QueueWeights(m) == QueueWeights(n)
      && QueueCycles(m, p) == After(c, QueueWeights(n), served)
  {
    var s := Toward(par, rank, p, v.stream);
    FirstIsServed(n, m, par, rank, root, v, p, s);
    QueueMembers(n, par, rank, p);
    OthersWait(n, m, par, rank, root, v, p);
    SameCycles(n, m, p, s, Stride(v.len, n[s].weight));
    SameShares(n, m, par, p);
  }

  lemma FirstIsServed(n: Nodes, m: Nodes, par: Parents, rank: map<Id, nat>, root: Id, v: Write, p: Id, s: Id)
    requires Wrote(n, m, par, rank, root, v) && p in n && Under(par, rank, v.stream, p) && s == Toward(par, rank, p, v.stream)
    ensures n[p].obq != [] && n[p].obq[0] == s && s in n && ServedAt(n, m, p, s, Stride(v.len, n[s].weight))
  {
    ChosenIsFirst(n, par, rank, root, v.stream);
    FirstIsToward(n, par, rank, p, v.stream);
  }

  lemma SameShares(n: Nodes, m: Nodes, par: Parents, p: Id)
    requires Shares(n, par, p) && Scheduled(m, par, {}) && OnlyOrder(n, m)
    ensures Shares(m, par, p) && QueueWeights(m) == QueueWeights(n)
  {
    assert SameQueue(n[p].obq, m[p].obq);
  }

  /** The other streams of the queue are not on the way. */
  lemma OthersWait(n: Nodes, m: Nodes, par: Parents, rank: map<Id, nat>, root: Id, v: Write, p: Id)
    requires Wrote(n, m, par, rank, root, v) && Shares(n, par, p) && Under(par, rank, v.stream, p)
    ensures forall x | x in n[p].obq && x != Toward(par, rank, p, v.stream) :: m[x] == n[x]
  {
    assert QueueOk(n, par, p);
    forall x | x in n[p].obq && x != Toward(par, rank, p, v.stream) ensures m[x] == n[x] {
      assert QueuedBelow(n, par, p, n[p].obq[IndexOf(n[p].obq, x)]);
      if Below(par, rank, v.stream, x) { OneChildToward(par, rank, p, v.stream, x); }
    }
  }

  lemma SameCycles(n: Nodes, m: Nodes, p: Id, s: Id, step: nat)
    requires p in n && s in n && OnlyOrder(n, m) && ServedAt(n, m, p, s, step) && |n[p].obq| != 1 && s in n[p].obq
    requires forall x | x in n[p].obq :: x in n && (x != s ==> m[x] == n[x])
    ensures (forall x | x in m[p].obq :: x in m) && QueueCycles(m, p) == QueueCycles(n, p)[s := n[s].cycle + step]
  {
    assert SameQueue(n[p].obq, m[p].obq);
    forall x | x in m[p].obq ensures x in m { assert x in n[p].obq; }
  }

  // ----------------------------------------------------------------- all writes in a tree

  /** The states before, between and after the writes `vs` of a tree nothing else changes. */
  ghost predicate TreeRun(states: seq<Nodes>, par: Parents, rank: map<Id, nat>, root: Id, vs: seq<Write>)
  {
    |states| == |vs| + 1 && forall i | 0 <= i < |vs| :: Wrote(states[i], states[i + 1], par, rank, root, vs[i])
  }

  lemma OneMoreWrite(states: seq<Nodes>, par: Parents, rank: map<Id, nat>, root: Id, vs: seq<Write>, m: Nodes, v: Write)
    requires TreeRun(states, par, rank, root, vs) && Wrote(states[|vs|], m, par, rank, root, v)
    ensures TreeRun(states + [m], par, rank, root, vs + [v])
  {
    var later, more := states + [m], vs + [v];
    forall i | 0 <= i < |more| ensures Wrote(later[i], later[i + 1], par, rank, root, more[i]) {
      assert i < |vs| ==> Wrote(states[i], states[i + 1], par, rank, root, vs[i]);
    }
  }

  /** The writes are of the first of these lengths, each of a stream that had something to send. */
  predicate Sending(states: seq<Nodes>, vs: seq<Write>, lens: seq<nat>)
  {
    && |vs| <= |lens| && |states| == |vs| + 1
    && forall i | 0 <= i < |vs| :: vs[i].len == lens[i] && vs[i].stream in states[i] && Active(states[i][vs[i].stream])
  }

  lemma OneMoreSent(states: seq<Nodes>, vs: seq<Write>, lens: seq<nat>, m: Nodes, v: Write)
    requires Sending(states, vs, lens) && |vs| < |lens| && v.len == lens[|vs|]
    requires v.stream in states[|vs|] && Active(states[|vs|][v.stream])
    ensures Sending(states + [m], vs + [v], lens)
  {}

  /** What the queue of `p` sees of the writes. */
  function ServicesOf(par: Parents, rank: map<Id, nat>, p: Id, vs: seq<Write>): (run: seq<Service>)
    requires Ranked(par, rank) && forall v | v in vs :: v.stream in par
    ensures |run| <= |vs|
  {
    if vs == [] then []
    else
      (if Under(par, rank, vs[0].stream, p) then [Service(Toward(par, rank, p, vs[0].stream), vs[0].len)] else []) +
      ServicesOf(par, rank, p, vs[1..])
  }

  lemma TreeWrites(states: seq<Nodes>, par: Parents, rank: map<Id, nat>, root: Id, vs: seq<Write>)
    requires TreeRun(states, par, rank, root, vs)
    ensures forall v | v in vs :: v.stream in par
    ensures vs != [] ==> TreeRun(states[1..], par, rank, root, vs[1..])
  {
    forall v | v in vs ensures v.stream in par {
      var i :| 0 <= i < |vs| && vs[i] == v;
      assert Wrote(states[i], states[i + 1], par, rank, root, vs[i]);
    }
    if vs != [] {
      forall i | 0 <= i < |vs| - 1 ensures Wrote(states[1..][i], states[1..][i + 1], par, rank, root, vs[1..][i]) {
        assert Wrote(states[i + 1], states[i + 2], par, rank, root, vs[i + 1]);
      }
    }
  }

  /**
   * For every run of writes of a tree and every queue of several streams in it, what the queue
   * sees is a run of services: each goes to the child with the least cycle, and the cycles at
   * the end are those the run leaves.
   */
  lemma {:induction false} TreeRunIsRun(states: seq<Nodes>, par: Parents, rank: map<Id, nat>, root: Id, vs: seq<Write>, p: Id)
    requires TreeRun(states, par, rank, root, vs) && Ranked(par, rank) && Shares(states[0], par, p)
    ensures (forall v | v in vs :: v.stream in par) && Shares(states[|vs|], par, p)
    ensures
      var c, w, run := QueueCycles(states[0], p), QueueWeights(states[0]), ServicesOf(par, rank, p, vs);
      GoodWeights(c, w) && Run(c, w, run) && Final(c, w, run) == QueueCycles(states[|vs|], p)
    decreases |vs|
  {
    TreeWrites(states, par, rank, root, vs);
    if vs != [] {
      assert Wrote(states[0], states[1], par, rank, root, vs[0]);
      if Under(par, rank, vs[0].stream, p) {
        WriteIsService(states[0], states[1], par, rank, root, vs[0], p);
      } else {
        WriteElsewhere(states[0], states[1], par, rank, root, vs[0], p);
      }
      TreeRunIsRun(states[1..], par, rank, root, vs[1..], p);
      var run, rest := ServicesOf(par, rank, p, vs), ServicesOf(par, rank, p, vs[1..]);
      assert Under(par, rank, vs[0].stream, p) ==> run[0] == Service(Toward(par, rank, p, vs[0].stream), vs[0].len) && run[1..] == rest;
      assert !Under(par, rank, vs[0].stream, p) ==> run == rest;
    }
  }

  /** The writes of `a` and the streams below it: their octets, and how many they are. */
  function OctetsBelow(par: Parents, rank: map<Id, nat>, vs: seq<Write>, a: Id): nat
    requires Ranked(par, rank) && forall v | v in vs :: v.stream in par
  {
    if vs == [] then 0
    else (if Below(par, rank, vs[0].stream, a) then vs[0].len else 0) + OctetsBelow(par, rank, vs[1..], a)
  }

  function WritesBelow(par: Parents, rank: map<Id, nat>, vs: seq<Write>, a: Id): nat
    requires Ranked(par, rank) && forall v | v in vs :: v.stream in par
  {
    if vs == [] then 0
    else (if Below(par, rank, vs[0].stream, a) then 1 else 0) + WritesBelow(par, rank, vs[1..], a)
  }

  /** What was written at and below `a`, beside its cycle and weight. */
  function FiguresBelow(n: Nodes, par: Parents, rank: map<Id, nat>, vs: seq<Write>, a: Id): Figures
    requires Ranked(par, rank) && a in n && forall v | v in vs :: v.stream in par
  {
    Figures(n[a].cycle, n[a].weight, OctetsBelow(par, rank, vs, a), WritesBelow(par, rank, vs, a))
  }

  /** The queue of `p` sees exactly the writes below each of its children. */
  lemma {:induction false} ServicesAreWrites(par: Parents, rank: map<Id, nat>, p: Id, vs: seq<Write>, a: Id)
    requires Ranked(par, rank) && p in par && a in par && par[a] == Some(p) && forall v | v in vs :: v.stream in par
    ensures
      var run := ServicesOf(par, rank, p, vs);
      Octets(run, a) == OctetsBelow(par, rank, vs, a) && Count(run, a) == WritesBelow(par, rank, vs, a)
    decreases |vs|
  {
    if vs != [] {
      ServicesAreWrites(par, rank, p, vs[1..], a);
      var run, rest, x := ServicesOf(par, rank, p, vs), ServicesOf(par, rank, p, vs[1..]), vs[0].stream;
      if Below(par, rank, x, a) { OneChildToward(par, rank, p, x, a); }
      assert Under(par, rank, x, p) ==> run[0] == Service(Toward(par, rank, p, x), vs[0].len) && run[1..] == rest;
      assert !Under(par, rank, x, p) ==> run == rest;
    }
  }

  /**
   * Weighted fairness in the tree: over every run of writes, of any length, the octets written
   * at and below two streams of one queue are in proportion to their weights, up to their
   * initial distance, one step, and one unit for each write.
   */
  lemma TreeIsFair(states: seq<Nodes>, par: Parents, rank: map<Id, nat>, root: Id, vs: seq<Write>, p: Id, a: Id, b: Id, max: nat)
    requires TreeRun(states, par, rank, root, vs) && Ranked(par, rank) && Shares(states[0], par, p)
    requires a in states[0][p].obq && b in states[0][p].obq
    requires forall v, x | v in vs && x in states[0][p].obq :: Stride(v.len, states[0][x].weight) <= max
    ensures forall v | v in vs :: v.stream in par
    ensures
      Proportional(FiguresBelow(states[0], par, rank, vs, a), FiguresBelow(states[0], par, rank, vs, b), max)
  {
    TreeRunIsRun(states, par, rank, root, vs, p);
    var n, run := states[0], ServicesOf(par, rank, p, vs);
    var c, w := QueueCycles(n, p), QueueWeights(n);
    ServedAreQueued(c, w, run);
    StepsAreLimited(n, par, rank, vs, p, max, c, w);
    QueueIsFair(n, par, rank, vs, p, a, b, max, run, c, w);
  }

  lemma QueueIsFair(n: Nodes, par: Parents, rank: map<Id, nat>, vs: seq<Write>, p: Id, a: Id, b: Id, max: nat,
                    run: seq<Service>, c: Cycles, w: Weights)
    requires Shares(n, par, p) && Ranked(par, rank) && (forall v | v in vs :: v.stream in par) && a in n[p].obq && b in n[p].obq
    requires run == ServicesOf(par, rank, p, vs) && c == QueueCycles(n, p) && w == QueueWeights(n)
    requires GoodWeights(c, w) && Run(c, w, run) && Limited(w, run, max)
    ensures Proportional(FiguresBelow(n, par, rank, vs, a), FiguresBelow(n, par, rank, vs, b), max)
  {
    ChildFigures(n, par, rank, vs, p, a);
    ChildFigures(n, par, rank, vs, p, b);
    OctetsAreFair(c, w, run, a, b, max);
  }

  /** The cycle, weight and octets of a child as its queue sees them. */
  lemma ChildFigures(n: Nodes, par: Parents, rank: map<Id, nat>, vs: seq<Write>, p: Id, a: Id)
    requires Shares(n, par, p) && Ranked(par, rank) && (forall v | v in vs :: v.stream in par) && a in n[p].obq
    ensures a in QueueCycles(n, p) && a in QueueWeights(n)
    ensures FiguresOf(QueueCycles(n, p), QueueWeights(n), ServicesOf(par, rank, p, vs), a) == FiguresBelow(n, par, rank, vs, a)
  {
    ChildInQueue(n, par, p, a);
    ServicesAreWrites(par, rank, p, vs, a);
  }

  lemma {:induction false} ServedAreQueued(c: Cycles, w: Weights, run: seq<Service>)
    requires GoodWeights(c, w) && Run(c, w, run)
    ensures forall v | v in run :: v.child in c
    decreases |run|
  {
    if run != [] {
      ServedAreQueued(After(c, w, run[0]), w, run[1..]);
      assert forall v | v in run :: v == run[0] || v in run[1..];
    }
  }

  lemma ChildInQueue(n: Nodes, par: Parents, p: Id, a: Id)
    requires Shares(n, par, p) && a in n[p].obq
    ensures a in par && par[a] == Some(p)
  {
    assert QueueOk(n, par, p);
    assert QueuedBelow(n, par, p, n[p].obq[IndexOf(n[p].obq, a)]);
  }

  lemma {:induction false} StepsAreLimited(n: Nodes, par: Parents, rank: map<Id, nat>, vs: seq<Write>, p: Id, max: nat, c: Cycles, w: Weights)
    requires Shares(n, par, p) && Ranked(par, rank) && (forall v | v in vs :: v.stream in par)
    requires c == QueueCycles(n, p) && w == QueueWeights(n) && GoodWeights(c, w)
    requires forall v, x | v in vs && x in n[p].obq :: Stride(v.len, n[x].weight) <= max
    requires forall v | v in ServicesOf(par, rank, p, vs) :: v.child in n[p].obq
    ensures Limited(w, ServicesOf(par, rank, p, vs), max)
    decreases |vs|
  {
    if vs != [] {
      var run, rest, x := ServicesOf(par, rank, p, vs), ServicesOf(par, rank, p, vs[1..]), vs[0].stream;
      assert forall v | v in rest :: v in run;
      StepsAreLimited(n, par, rank, vs[1..], p, max, c, w);
      if Under(par, rank, x, p) {
        assert run[0] == Service(Toward(par, rank, p, x), vs[0].len) && run[1..] == rest;
        forall i | 0 <= i < |run| ensures run[i].child in w && w[run[i].child] > 0 && Step(w, run[i]) <= max {
          assert run[i] in run && (i > 0 ==> run[i] == rest[i - 1]);
          assert vs[0] in vs;
        }
      }
    }
  }

  /** What is not served of a queue was not written, and the reverse. */
  lemma {:induction false} Unserved(par: Parents, rank: map<Id, nat>, p: Id, vs: seq<Write>, b: Id)
    requires Ranked(par, rank) && (forall v | v in vs :: v.stream in par && !Below(par, rank, v.stream, b) && v.len > 0)
    ensures forall v | v in ServicesOf(par, rank, p, vs) :: v.child != b && v.len > 0
    decreases |vs|
  {
    if vs != [] { Unserved(par, rank, p, vs[1..], b); }
  }

  /**
   * No starvation in the tree: while nothing at or below `b` is written, the number of writes
   * below its parent is bounded by how far the other streams of the queue are behind `b`.
   */
  lemma TreeWaitingIsBounded(states: seq<Nodes>, par: Parents, rank: map<Id, nat>, root: Id, vs: seq<Write>, p: Id,
                             others: seq<Id>, b: Id)
    requires TreeRun(states, par, rank, root, vs) && Ranked(par, rank) && Shares(states[0], par, p) && b in states[0][p].obq
    requires forall x :: x in others <==> x in states[0][p].obq && x != b
    requires forall v | v in vs :: v.stream in par && !Below(par, rank, v.stream, b) && v.len > 0
    ensures WritesUnder(par, rank, vs, p) <= Allowance(QueueCycles(states[0], p), others, states[0][b].cycle)
  {
    TreeRunIsRun(states, par, rank, root, vs, p);
    Unserved(par, rank, p, vs, b);
    var c, w, run := QueueCycles(states[0], p), QueueWeights(states[0]), ServicesOf(par, rank, p, vs);
    forall i | 0 <= i < |run| ensures run[i].child != b && run[i].len > 0 { assert run[i] in run; }
    WaitingIsBounded(c, w, run, others, b);
    ServicesAreUnder(par, rank, p, vs);
  }

  /** How many writes were of streams under `p`. */
  function WritesUnder(par: Parents, rank: map<Id, nat>, vs: seq<Write>, p: Id): nat
    requires Ranked(par, rank) && forall v | v in vs :: v.stream in par
  {
    if vs == [] then 0
    else (if Under(par, rank, vs[0].stream, p) then 1 else 0) + WritesUnder(par, rank, vs[1..], p)
  }

  lemma {:induction false} ServicesAreUnder(par: Parents, rank: map<Id, nat>, p: Id, vs: seq<Write>)
    requires Ranked(par, rank) && forall v | v in vs :: v.stream in par
    ensures |ServicesOf(par, rank, p, vs)| == WritesUnder(par, rank, vs, p)
    decreases |vs|
  {
    if vs != [] { ServicesAreUnder(par, rank, p, vs[1..]); }
  }
}
