/**
 * Weighted sharing when streams leave their queues and return (stream_obq_push and
 * stream_obq_remove of lib/nghttp2_stream.c, called as items are attached, detached, deferred
 * and resumed): a stream that comes and goes gets no more than its share.
 */
module StreamReturns {
  import opened Bytes
  import opened StreamSchedule
  import opened StreamFairness

  /** Weights and lengths of writes are the same. */
  predicate SameLengths(n: Nodes, m: Nodes)
  {
    m.Keys == n.Keys && forall x | x in n :: m[x].weight == n[x].weight && m[x].lastWriteLen == n[x].lastWriteLen
  }

  /** And last cycles. */
  predicate SameMeasures(n: Nodes, m: Nodes)
  {
    SameLengths(n, m) && forall x | x in n :: m[x].lastCycle == n[x].lastCycle
  }

  /** Streams became active: some joined the queues of their parents. */
  ghost predicate Woke(n: Nodes, m: Nodes, par: Parents)
  {
    Scheduled(n, par, {}) && Scheduled(m, par, {}) && SameMeasures(n, m) && QueuedStay(n, m) && Joins(n, m, par)
  }

  /** Streams became inactive: some left the queues of their parents. */
  ghost predicate Slept(n: Nodes, m: Nodes, par: Parents)
  {
    && Scheduled(n, par, {}) && Scheduled(m, par, {}) && SameLengths(n, m) && Leaves(n, m)
    && forall x | x in n && m[x].queued :: n[x].queued
  }

  datatype Event = Writes(v: Write) | Wakes | Sleeps

  ghost predicate Happens(n: Nodes, m: Nodes, par: Parents, rank: map<Id, nat>, root: Id, e: Event)
  {
    match e
    case Writes(v) => Wrote(n, m, par, rank, root, v)
    case Wakes => Woke(n, m, par)
    case Sleeps => Slept(n, m, par)
  }

  /** The states before, between and after the events of a tree whose streams come and go. */
  ghost predicate EventRun(states: seq<Nodes>, par: Parents, rank: map<Id, nat>, root: Id, es: seq<Event>)
  {
    |states| == |es| + 1 && forall i | 0 <= i < |es| :: Happens(states[i], states[i + 1], par, rank, root, es[i])
  }

  // ---------------------------------------------------------------- where a stream stands

  /** What the last write of `x` costs it. */
  function Charge(n: Nodes, x: Id): nat
    requires x in n && n[x].weight > 0
  {
    Stride(n[x].lastWriteLen, n[x].weight)
  }

  /** The cycle `x` would have at most, were it to leave the queue of `p` and return. */
  function Standing(n: Nodes, p: Id, x: Id): nat
    requires p in n && x in n && n[x].weight > 0
  {
    var back := n[p].lastCycle + Charge(n, x);
    if n[x].queued && n[x].cycle < back then n[x].cycle else back
  }

  /** What a write means for the virtual service of `x`. */
  function Gain(n: Nodes, par: Parents, rank: map<Id, nat>, e: Event, x: Id): nat
    requires Ranked(par, rank) && x in n && n[x].weight > 0 && (e.Writes? ==> e.v.stream in par)
  {
    if e.Writes? && Below(par, rank, e.v.stream, x) then Stride(e.v.len, n[x].weight) else 0
  }

  /** `x` and `y` are children of `p`, and `y` is queued. */
  ghost predicate Siblings(n: Nodes, par: Parents, p: Id, x: Id, y: Id)
  {
    && Scheduled(n, par, {}) && p in n && x in n && y in n && x != y && par[x] == Some(p) && par[y] == Some(p) && n[y].queued
  }

  lemma QueuedIsLater(n: Nodes, par: Parents, p: Id, x: Id, y: Id)
    requires Siblings(n, par, p, x, y)
    ensures y in n[p].obq && n[p].lastCycle <= n[y].cycle && Standing(n, p, x) <= n[y].cycle + Charge(n, x)
  {
    assert InParentsQueue(n, par, y) && QueueOk(n, par, p);
    assert n[p].lastCycle <= n[n[p].obq[IndexOf(n[p].obq, y)]].cycle;
  }

  lemma WakingKeeps(n: Nodes, m: Nodes, par: Parents, p: Id, x: Id, y: Id)
    requires Siblings(n, par, p, x, y) && Siblings(m, par, p, x, y) && Woke(n, m, par)
    ensures m[y].cycle == n[y].cycle && Standing(m, p, x) == Standing(n, p, x)
  {
    assert CycleAfter(n, m, par, x) && CycleAfter(n, m, par, y);
  }

  lemma SleepingKeeps(n: Nodes, m: Nodes, par: Parents, p: Id, x: Id, y: Id)
    requires Siblings(n, par, p, x, y) && Siblings(m, par, p, x, y) && Slept(n, m, par)
    ensures m[y].cycle == n[y].cycle && Standing(m, p, x) >= Standing(n, p, x)
  {
    assert CyclesLeft(n, m, x) && CyclesLeft(n, m, y) && CyclesLeft(n, m, p);
    QueuedIsLater(n, par, p, x, y);
    QueuedIsLater(m, par, p, x, y);
    assert QueuedIffActive(n, par, p) && QueuedIffActive(m, par, p) && InParentsQueue(n, par, p) && InParentsQueue(m, par, p);
    assert m[p].queued == n[p].queued && m[p].lastCycle == n[p].lastCycle;
    assert m[x].queued ==> n[x].queued;
    assert Charge(m, x) == Charge(n, x);
  }

  /** A write that is not below `p` changes neither its children nor its last cycle. */
  lemma WritingElsewhere(n: Nodes, m: Nodes, par: Parents, rank: map<Id, nat>, root: Id, v: Write, p: Id, x: Id)
    requires Wrote(n, m, par, rank, root, v) && p in n && x in n && par[x] == Some(p) && !Under(par, rank, v.stream, p)
    ensures m[x] == n[x] && m[p].lastCycle == n[p].lastCycle && !Below(par, rank, v.stream, x)
  {
    if Below(par, rank, v.stream, x) { OneChildToward(par, rank, p, v.stream, x); }
  }

  /** A write below `p`: the child on the way is served, the others are not. */
  lemma WritingBelow(n: Nodes, m: Nodes, par: Parents, rank: map<Id, nat>, root: Id, v: Write, p: Id, c: Id)
    requires Wrote(n, m, par, rank, root, v) && p in n && Under(par, rank, v.stream, p) && c == Toward(par, rank, p, v.stream)
    ensures c in n && n[p].obq != [] && n[p].obq[0] == c && ServedAt(n, m, p, c, Stride(v.len, n[c].weight))
    ensures m[c].lastWriteLen == v.len && m[c].weight == n[c].weight && Below(par, rank, v.stream, c)
    ensures forall x | x in n && par[x] == Some(p) && x != c :: m[x] == n[x] && !Below(par, rank, v.stream, x)
  {
    FirstIsServed(n, m, par, rank, root, v, p, c);
    LengthOnWay(n, m, par, rank, v.stream, v.len, c);
    forall x | x in n && par[x] == Some(p) && x != c ensures m[x] == n[x] && !Below(par, rank, v.stream, x) {
      if Below(par, rank, v.stream, x) { OneChildToward(par, rank, p, v.stream, x); }
    }
  }

  lemma {:induction false} LengthOnWay(n: Nodes, m: Nodes, par: Parents, rank: map<Id, nat>, s: Id, len: nat, c: Id)
    requires Related(n, par) && m.Keys == n.Keys && Ranked(par, rank) && s in par && WayServed(n, m, par, rank, s, len)
    requires c in par && Below(par, rank, s, c)
    ensures m[c].lastWriteLen == len
  {
    LengthUpTo(n, m, par, rank, s, s, len, c);
  }

  lemma {:induction false} LengthUpTo(n: Nodes, m: Nodes, par: Parents, rank: map<Id, nat>, s: Id, x: Id, len: nat, c: Id)
    requires Related(n, par) && m.Keys == n.Keys && Ranked(par, rank) && s in par && WayServed(n, m, par, rank, s, len)
    requires x in par && c in par && Below(par, rank, s, x) && Below(par, rank, x, c) && m[x].lastWriteLen == len
    ensures m[c].lastWriteLen == len
    decreases rank[x]
  {
    if x != c {
      ParentIsAbove(par, rank, s, x);
      assert ServedAt(n, m, par[x].value, x, Stride(len, n[x].weight));
      LengthUpTo(n, m, par, rank, s, par[x].value, len, c);
    }
  }

  /** Where `x` stands from `y` grows by at least what `x` gains over `y`. */
  ghost predicate Keeps(n: Nodes, m: Nodes, par: Parents, rank: map<Id, nat>, e: Event, p: Id, x: Id, y: Id)
    requires p in n && x in n && y in n && p in m && x in m && y in m && n[x].weight > 0 && m[x].weight > 0 && n[y].weight > 0
    requires Ranked(par, rank) && (e.Writes? ==> e.v.stream in par)
  {
    Standing(m, p, x) - m[y].cycle >= Standing(n, p, x) - n[y].cycle + Gain(n, par, rank, e, x) - Gain(n, par, rank, e, y)
  }

  lemma WritingKeeps(n: Nodes, m: Nodes, par: Parents, rank: map<Id, nat>, root: Id, v: Write, p: Id, x: Id, y: Id)
    requires Wrote(n, m, par, rank, root, v) && Siblings(n, par, p, x, y) && Siblings(m, par, p, x, y)
    ensures Keeps(n, m, par, rank, Writes(v), p, x, y)
  {
    QueuedIsLater(n, par, p, x, y);
    assert QueueOk(n, par, p);
    if Under(par, rank, v.stream, p) {
      var c := Toward(par, rank, p, v.stream);
      WritingBelow(n, m, par, rank, root, v, p, c);
      QueueMembers(n, par, rank, p);
      if |n[p].obq| == 1 {
        AloneKeeps(n, par, p, x, y);
      } else {
        TopIsEarliest(n, par, p, y);
        assert n[p].lastCycle <= n[c].cycle <= n[y].cycle;
        assert m[p].lastCycle == n[c].cycle && m[c].cycle == n[c].cycle + Stride(v.len, n[c].weight);
        assert x != c ==> m[x] == n[x] && Gain(n, par, rank, Writes(v), x) == 0;
        assert y != c ==> m[y] == n[y] && Gain(n, par, rank, Writes(v), y) == 0;
        assert x == c ==> Charge(m, x) == Stride(v.len, n[x].weight) == Gain(n, par, rank, Writes(v), x);
      }
    } else {
      WritingElsewhere(n, m, par, rank, root, v, p, x);
      WritingElsewhere(n, m, par, rank, root, v, p, y);
    }
  }

  /** A queue of one has no other stream in it. */
  lemma AloneKeeps(n: Nodes, par: Parents, p: Id, x: Id, y: Id)
    requires Siblings(n, par, p, x, y) && |n[p].obq| == 1
    ensures n[p].obq[0] == y && !n[x].queued
  {
    QueuedIsLater(n, par, p, x, y);
    assert InParentsQueue(n, par, x);
  }

  lemma EventKeeps(n: Nodes, m: Nodes, par: Parents, rank: map<Id, nat>, root: Id, e: Event, p: Id, x: Id, y: Id)
    requires Happens(n, m, par, rank, root, e) && Ranked(par, rank) && Siblings(n, par, p, x, y) && Siblings(m, par, p, x, y)
    ensures e.Writes? ==> e.v.stream in par
    ensures Keeps(n, m, par, rank, e, p, x, y) && m[x].weight == n[x].weight && m[y].weight == n[y].weight
  {
    match e
    case Writes(v) => WritingKeeps(n, m, par, rank, root, v, p, x, y);
    case Wakes => WakingKeeps(n, m, par, p, x, y);
    case Sleeps => SleepingKeeps(n, m, par, p, x, y);
  }

  // ------------------------------------------------------------------------ over runs

  /** The writes of a run. */
  function WritesOf(es: seq<Event>): seq<Write>
  {
    if es == [] then [] else (if es[0].Writes? then [es[0].v] else []) + WritesOf(es[1..])
  }

  /** The virtual service of `x`: what the writes at and below it amount to at its weight. */
  function Served(par: Parents, rank: map<Id, nat>, vs: seq<Write>, x: Id, weight: nat): nat
    requires Ranked(par, rank) && weight > 0 && forall v | v in vs :: v.stream in par
  {
    if vs == [] then 0
    else (if Below(par, rank, vs[0].stream, x) then Stride(vs[0].len, weight) else 0) + Served(par, rank, vs[1..], x, weight)
  }

  lemma {:induction false} WritesAreKnown(states: seq<Nodes>, par: Parents, rank: map<Id, nat>, root: Id, es: seq<Event>)
    requires EventRun(states, par, rank, root, es)
    ensures forall v | v in WritesOf(es) :: v.stream in par
    decreases |es|
  {
    if es != [] {
      assert Happens(states[0], states[1], par, rank, root, es[0]);
      RestOfRun(states, par, rank, root, es);
      WritesAreKnown(states[1..], par, rank, root, es[1..]);
    }
  }

  lemma RestOfRun(states: seq<Nodes>, par: Parents, rank: map<Id, nat>, root: Id, es: seq<Event>)
    requires EventRun(states, par, rank, root, es) && es != []
    ensures EventRun(states[1..], par, rank, root, es[1..])
  {
    forall i | 0 <= i < |es| - 1 ensures Happens(states[1..][i], states[1..][i + 1], par, rank, root, es[1..][i]) {
      assert Happens(states[i + 1], states[i + 2], par, rank, root, es[i + 1]);
    }
  }

  /** `y` is queued all the time. */
  ghost predicate AlwaysQueued(states: seq<Nodes>, par: Parents, p: Id, x: Id, y: Id)
  {
    forall i | 0 <= i < |states| :: Siblings(states[i], par, p, x, y)
  }

  /** Over every run, what `x` gains over `y` shows in where it stands. */
  lemma {:induction false} StandingCounts(states: seq<Nodes>, par: Parents, rank: map<Id, nat>, root: Id, es: seq<Event>,
                                          p: Id, x: Id, y: Id)
    requires EventRun(states, par, rank, root, es) && Ranked(par, rank) && AlwaysQueued(states, par, p, x, y)
    ensures forall v | v in WritesOf(es) :: v.stream in par
    ensures
      var n, m, vs := states[0], states[|es|], WritesOf(es);
      && m[x].weight == n[x].weight
      && Standing(m, p, x) - m[y].cycle >=
         Standing(n, p, x) - n[y].cycle + Served(par, rank, vs, x, n[x].weight) - Served(par, rank, vs, y, n[y].weight)
    decreases |es|
  {
    WritesAreKnown(states, par, rank, root, es);
    assert Siblings(states[0], par, p, x, y);
    if es != [] {
      assert Siblings(states[1], par, p, x, y) && Happens(states[0], states[1], par, rank, root, es[0]);
      EventKeeps(states[0], states[1], par, rank, root, es[0], p, x, y);
      RestOfRun(states, par, rank, root, es);
      assert AlwaysQueued(states[1..], par, p, x, y);
      StandingCounts(states[1..], par, rank, root, es[1..], p, x, y);
      ServedNext(states[0], par, rank, es, x);
      ServedNext(states[0], par, rank, es, y);
    }
  }

  lemma ServedNext(n: Nodes, par: Parents, rank: map<Id, nat>, es: seq<Event>, x: Id)
    requires es != [] && Ranked(par, rank) && x in n && n[x].weight > 0 && (forall v | v in WritesOf(es) :: v.stream in par)
    ensures (es[0].Writes? ==> es[0].v.stream in par) && (forall v | v in WritesOf(es[1..]) :: v.stream in par)
    ensures
      Served(par, rank, WritesOf(es), x, n[x].weight) ==
      Gain(n, par, rank, es[0], x) + Served(par, rank, WritesOf(es[1..]), x, n[x].weight)
  {
    var vs, rest := WritesOf(es), WritesOf(es[1..]);
    if es[0].Writes? {
      assert vs == [es[0].v] + rest && vs[0] in vs && vs[1..] == rest;
    } else {
      assert vs == rest;
    }
    forall v | v in rest ensures v.stream in par { assert v in vs; }
  }

  /** From `n` to `m` the writes served `x` no more than `y`, but for where `x` stood and the charge for its last write. */
  ghost predicate NotAhead(n: Nodes, m: Nodes, par: Parents, rank: map<Id, nat>, vs: seq<Write>, p: Id, x: Id, y: Id)
    requires Siblings(n, par, p, x, y) && Siblings(m, par, p, x, y) && Ranked(par, rank) && forall v | v in vs :: v.stream in par
  {
    Served(par, rank, vs, x, n[x].weight) <= Served(par, rank, vs, y, n[y].weight) + Edge(n, m, p, x, y)
  }

  function Edge(n: Nodes, m: Nodes, p: Id, x: Id, y: Id): int
    requires p in n && x in n && y in n && x in m && n[x].weight > 0 && m[x].weight > 0
  {
    Charge(m, x) + n[y].cycle - Standing(n, p, x)
  }

  /**
   * A stream that leaves its queue and returns, any number of times, gets no more virtual service
   * than a sibling that stays, but for where it stood first and the charge for its last write.
   */
  lemma ReturningIsFair(states: seq<Nodes>, par: Parents, rank: map<Id, nat>, root: Id, es: seq<Event>, p: Id, x: Id, y: Id)
    requires EventRun(states, par, rank, root, es) && Ranked(par, rank) && AlwaysQueued(states, par, p, x, y)
    ensures Siblings(states[0], par, p, x, y) && Siblings(states[|es|], par, p, x, y)
    ensures forall v | v in WritesOf(es) :: v.stream in par
    ensures NotAhead(states[0], states[|es|], par, rank, WritesOf(es), p, x, y)
  {
    assert Siblings(states[0], par, p, x, y) && Siblings(states[|es|], par, p, x, y);
    StandingCounts(states, par, rank, root, es, p, x, y);
    QueuedIsLater(states[|es|], par, p, x, y);
  }

  /** Octets and writes of `x` against its virtual service. */
  lemma {:induction false} ServedTracks(par: Parents, rank: map<Id, nat>, vs: seq<Write>, x: Id, weight: nat)
    requires Ranked(par, rank) && weight > 0 && forall v | v in vs :: v.stream in par
    ensures Tracks(weight, Served(par, rank, vs, x, weight), OctetsBelow(par, rank, vs, x), WritesBelow(par, rank, vs, x))
    decreases |vs|
  {
    if vs != [] {
      ServedTracks(par, rank, vs[1..], x, weight);
      if Below(par, rank, vs[0].stream, x) {
        StrideBounds(vs[0].len, weight);
        Distribute(weight, Stride(vs[0].len, weight), Served(par, rank, vs[1..], x, weight), WritesBelow(par, rank, vs[1..], x));
      }
    }
  }

  /** The same in octets: they are in proportion to the weights, up to that lead and one unit for each write. */
  ghost predicate NotAheadInOctets(n: Nodes, m: Nodes, par: Parents, rank: map<Id, nat>, vs: seq<Write>, p: Id, x: Id, y: Id)
    requires Siblings(n, par, p, x, y) && Siblings(m, par, p, x, y) && Ranked(par, rank) && forall v | v in vs :: v.stream in par
  {
    256 * (OctetsBelow(par, rank, vs, x) * n[y].weight - OctetsBelow(par, rank, vs, y) * n[x].weight)
      <= n[x].weight * n[y].weight * (Edge(n, m, p, x, y) + WritesBelow(par, rank, vs, x))
  }

  lemma InOctets(n: Nodes, m: Nodes, par: Parents, rank: map<Id, nat>, vs: seq<Write>, p: Id, x: Id, y: Id)
    requires Siblings(n, par, p, x, y) && Siblings(m, par, p, x, y) && Ranked(par, rank) && forall v | v in vs :: v.stream in par
    requires NotAhead(n, m, par, rank, vs, p, x, y)
    ensures NotAheadInOctets(n, m, par, rank, vs, p, x, y)
  {
    var wx, wy, edge := n[x].weight, n[y].weight, Edge(n, m, p, x, y);
    ServedTracks(par, rank, vs, x, wx);
    ServedTracks(par, rank, vs, y, wy);
    CrossMultiply(wx, wy, Served(par, rank, vs, x, wx), Served(par, rank, vs, y, wy), OctetsBelow(par, rank, vs, x),
                  OctetsBelow(par, rank, vs, y), WritesBelow(par, rank, vs, x), edge);
  }

  lemma ReturningIsProportional(states: seq<Nodes>, par: Parents, rank: map<Id, nat>, root: Id, es: seq<Event>, p: Id, x: Id, y: Id)
    requires EventRun(states, par, rank, root, es) && Ranked(par, rank) && AlwaysQueued(states, par, p, x, y)
    ensures Siblings(states[0], par, p, x, y) && Siblings(states[|es|], par, p, x, y)
    ensures forall v | v in WritesOf(es) :: v.stream in par
    ensures NotAheadInOctets(states[0], states[|es|], par, rank, WritesOf(es), p, x, y)
  {
    ReturningIsFair(states, par, rank, root, es, p, x, y);
    InOctets(states[0], states[|es|], par, rank, WritesOf(es), p, x, y);
  }
}
