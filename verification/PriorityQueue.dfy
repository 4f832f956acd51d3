/**
 * The binary heap of lib/nghttp2_pq.c.  The functions describe what the operations
 * make of the array, entry by entry; the class performs them in place.
 */
module PriorityQueue {
  import opened Bytes

  /** A strict weak order, which is what the heap needs of its comparison. */
  ghost predicate StrictWeakOrder<T(!new)>(less: (T, T) -> bool)
  {
    && (forall a :: !less(a, a))
    && (forall a, b, c | less(a, b) && less(b, c) :: less(a, c))
    && (forall a, b, c | !less(a, b) && !less(b, c) :: !less(a, c))
  }

  function Parent(i: nat): nat
    requires i > 0
  {
    (i - 1) / 2
  }

  /** No entry comes before its parent. */
  ghost predicate Heap<T>(q: seq<T>, less: (T, T) -> bool)
  {
    forall i | 0 < i < |q| :: !less(q[i], q[Parent(i)])
  }

  function Swapped<T>(q: seq<T>, i: nat, j: nat): (r: seq<T>)
    requires i < |q| && j < |q|
    ensures |r| == |q|
  {
    q[i := q[j]][j := q[i]]
  }

  function Up<T>(q: seq<T>, less: (T, T) -> bool, i: nat): (r: seq<T>)
    requires i < |q|
    ensures |r| == |q|
    decreases i
  {
    if i == 0 || !less(q[i], q[Parent(i)]) then q
    else Up(Swapped(q, Parent(i), i), less, Parent(i))
  }

  /** The first of `i` and its children. */
  function First<T>(q: seq<T>, less: (T, T) -> bool, i: nat): (m: nat)
    requires i < |q|
    ensures m < |q| && (m == i || m == 2 * i + 1 || m == 2 * i + 2)
  {
    var j := 2 * i + 1;
    var m := if j < |q| && less(q[j], q[i]) then j else i;
    if j + 1 < |q| && less(q[j + 1], q[m]) then j + 1 else m
  }

  function Down<T>(q: seq<T>, less: (T, T) -> bool, i: nat): (r: seq<T>)
    ensures |r| == |q|
    decreases |q| - i
  {
    if i >= |q| then q
    else
      var m := First(q, less, i);
      if m == i then q else Down(Swapped(q, i, m), less, m)
  }

  lemma SwapKeepsEntries<T>(q: seq<T>, i: nat, j: nat)
    requires i < |q| && j < |q|
    ensures multiset(Swapped(q, i, j)) == multiset(q)
  {
    assert multiset(q[i := q[j]]) == multiset(q) - multiset{q[i]} + multiset{q[j]};
  }

  lemma {:induction false} UpKeepsEntries<T>(q: seq<T>, less: (T, T) -> bool, i: nat)
    requires i < |q|
    ensures multiset(Up(q, less, i)) == multiset(q)
    decreases i
  {
    if i > 0 && less(q[i], q[Parent(i)]) {
      SwapKeepsEntries(q, Parent(i), i);
      UpKeepsEntries(Swapped(q, Parent(i), i), less, Parent(i));
    }
  }

  lemma {:induction false} DownKeepsEntries<T>(q: seq<T>, less: (T, T) -> bool, i: nat)
    ensures multiset(Down(q, less, i)) == multiset(q)
    decreases |q| - i
  {
    if i < |q| && First(q, less, i) != i {
      SwapKeepsEntries(q, i, First(q, less, i));
      DownKeepsEntries(Swapped(q, i, First(q, less, i)), less, First(q, less, i));
    }
  }

  function Push<T>(q: seq<T>, less: (T, T) -> bool, x: T): seq<T> { Up(q + [x], less, |q|) }

  /** `q` with entry `i` overwritten by the last one, which is cut off. */
  function Filled<T>(q: seq<T>, i: nat): (r: seq<T>)
    requires i < |q|
    ensures |r| == |q| - 1
  {
    q[i := q[|q| - 1]][..|q| - 1]
  }

  function Pop<T>(q: seq<T>, less: (T, T) -> bool): seq<T>
  {
    if q == [] then q else Down(Filled(q, 0), less, 0)
  }

  /**
   * Removal of entry `i`; for an inner entry `down` says whether the one that takes its
   * place sinks or rises.
   */
  function RemoveBy<T>(q: seq<T>, less: (T, T) -> bool, i: nat, down: bool): seq<T>
    requires i < |q|
  {
    if i == 0 then Pop(q, less)
    else if i == |q| - 1 then q[..|q| - 1]
    else if down then Down(Filled(q, i), less, i)
    else Up(Filled(q, i), less, i)
  }

  /** Removal as the source decides it: by comparing the removed entry with its replacement. */
  function Remove<T>(q: seq<T>, less: (T, T) -> bool, i: nat): seq<T>
    requires i < |q|
  {
    RemoveBy(q, less, i, less(q[i], q[|q| - 1]))
  }

  /** Sinks entries `n - 1` down to `0`. */
  function Rebuild<T>(q: seq<T>, less: (T, T) -> bool, n: nat): seq<T>
    requires n <= |q|
    decreases n
  {
    if n == 0 then q else Rebuild(Down(q, less, n - 1), less, n - 1)
  }

  // ---------------------------------------------------------------------- order

  /** A heap but for entry `i`, which may come before its parent; its children respect both. */
  ghost predicate HeapButUp<T>(q: seq<T>, less: (T, T) -> bool, i: nat)
  {
    && i < |q|
    && (forall j | 0 < j < |q| && j != i :: !less(q[j], q[Parent(j)]))
    && (forall j | 0 < j < |q| && i > 0 && Parent(j) == i :: !less(q[j], q[Parent(i)]))
  }

  lemma {:induction false} UpRepairs<T(!new)>(q: seq<T>, less: (T, T) -> bool, i: nat)
    requires StrictWeakOrder(less) && HeapButUp(q, less, i)
    ensures Heap(Up(q, less, i), less)
    decreases i
  {
    if i > 0 && less(q[i], q[Parent(i)]) {
      var p := Parent(i);
      var r := Swapped(q, p, i);
      assert HeapButUp(r, less, p) by {
        forall j | 0 < j < |r| && j != p ensures !less(r[j], r[Parent(j)]) {
          assert !less(q[j], q[Parent(j)]) || j == i;
        }
        forall j | 0 < j < |r| && p > 0 && Parent(j) == p ensures !less(r[j], r[Parent(p)]) {
          assert !less(q[p], q[Parent(p)]);
          assert j != i ==> !less(q[j], q[p]);
        }
      }
      UpRepairs(r, less, p);
    }
  }

  /** A heap from entry `n` on: children of entries from `n` on respect their parents. */
  ghost predicate HeapFrom<T>(q: seq<T>, less: (T, T) -> bool, n: nat)
  {
    forall j | 0 < j < |q| && Parent(j) >= n :: !less(q[j], q[Parent(j)])
  }

  /** A heap from `n` on but for the children of `i`; they respect the parent of `i`. */
  ghost predicate HeapButDown<T>(q: seq<T>, less: (T, T) -> bool, i: nat, n: nat)
  {
    && (forall j | 0 < j < |q| && Parent(j) >= n && Parent(j) != i :: !less(q[j], q[Parent(j)]))
    && (forall j | 0 < j < |q| && i > 0 && Parent(i) >= n && Parent(j) == i :: !less(q[j], q[Parent(i)]))
  }

  lemma {:induction false} DownRepairs<T(!new)>(q: seq<T>, less: (T, T) -> bool, i: nat, n: nat)
    requires StrictWeakOrder(less) && n <= i && HeapButDown(q, less, i, n)
    ensures HeapFrom(Down(q, less, i), less, n)
    decreases |q| - i
  {
    if i < |q| {
      var m := First(q, less, i);
      FirstIsFirst(q, less, i);
      if m != i {
        var r := Swapped(q, i, m);
        SwapDown(q, less, i, n);
        DownRepairs(r, less, m, n);
      }
    }
  }

  lemma FirstIsFirst<T(!new)>(q: seq<T>, less: (T, T) -> bool, i: nat)
    requires StrictWeakOrder(less) && i < |q|
    ensures
      var m := First(q, less, i);
      && (m != i ==> less(q[m], q[i]) && Parent(m) == i)
      && (forall j | 0 < j < |q| && Parent(j) == i :: !less(q[j], q[m]))
  {
    var m := First(q, less, i);
    forall j | 0 < j < |q| && Parent(j) == i ensures !less(q[j], q[m]) {
      assert j == 2 * i + 1 || j == 2 * i + 2;
    }
  }

  lemma SwapDown<T(!new)>(q: seq<T>, less: (T, T) -> bool, i: nat, n: nat)
    requires StrictWeakOrder(less) && i < |q| && n <= i && HeapButDown(q, less, i, n) && First(q, less, i) != i
    ensures HeapButDown(Swapped(q, i, First(q, less, i)), less, First(q, less, i), n)
  {
    FirstIsFirst(q, less, i);
    var m := First(q, less, i);
    var r := Swapped(q, i, m);
    forall j | 0 < j < |r| && Parent(j) >= n && Parent(j) != m ensures !less(r[j], r[Parent(j)]) {
      if Parent(j) == i {
        assert !less(q[j], q[m]);
      } else if j == i {
        assert !less(q[m], q[Parent(i)]);
      } else {
        assert !less(q[j], q[Parent(j)]);
      }
    }
    forall j | 0 < j < |r| && Parent(j) == m ensures !less(r[j], r[Parent(m)]) {
      assert !less(q[j], q[m]);
    }
  }

  // ----------------------------------------------------------------- main results

  /** The top of a heap comes before no entry less than it: it is minimal. */
  lemma {:induction false} TopIsMinimal<T(!new)>(q: seq<T>, less: (T, T) -> bool, i: nat)
    requires StrictWeakOrder(less) && Heap(q, less) && i < |q|
    ensures !less(q[i], q[0])
    decreases i
  {
    if i > 0 { TopIsMinimal(q, less, Parent(i)); }
  }

  lemma PushKeepsHeap<T(!new)>(q: seq<T>, less: (T, T) -> bool, x: T)
    requires StrictWeakOrder(less) && Heap(q, less)
    ensures Heap(Push(q, less, x), less) && multiset(Push(q, less, x)) == multiset(q) + multiset{x}
  {
    UpRepairs(q + [x], less, |q|);
    UpKeepsEntries(q + [x], less, |q|);
  }

  lemma FilledMultiset<T>(q: seq<T>, i: nat)
    requires i < |q|
    ensures multiset(Filled(q, i)) == multiset(q) - multiset{q[i]}
  {
    var n := |q| - 1;
    if i == n {
      assert q == q[..n] + [q[n]];
      assert Filled(q, i) == q[..n];
    } else {
      assert q == q[..i] + [q[i]] + q[i + 1..n] + [q[n]];
      assert Filled(q, i) == q[..i] + [q[n]] + q[i + 1..n];
    }
  }

  lemma PopKeepsHeap<T(!new)>(q: seq<T>, less: (T, T) -> bool)
    requires StrictWeakOrder(less) && Heap(q, less) && q != []
    ensures Heap(Pop(q, less), less) && multiset(Pop(q, less)) == multiset(q) - multiset{q[0]}
  {
    FilledMultiset(q, 0);
    DownRepairs(Filled(q, 0), less, 0, 0);
    DownKeepsEntries(Filled(q, 0), less, 0);
  }

  /** Whether the entry that takes the place of inner entry `i` may sink, or rise, from there. */
  ghost predicate MayMove<T>(q: seq<T>, less: (T, T) -> bool, i: nat, down: bool)
    requires 0 < i < |q| - 1
  {
    var x := q[|q| - 1];
    if down then !less(x, q[Parent(i)])
    else forall j | 0 < j < |q| - 1 && Parent(j) == i :: !less(q[j], x)
  }

  /** Removing an inner entry leaves a heap iff its replacement moves in the right direction. */
  lemma RemoveByIff<T(!new)>(q: seq<T>, less: (T, T) -> bool, i: nat, down: bool)
    requires StrictWeakOrder(less) && Heap(q, less) && 0 < i < |q| - 1
    ensures Heap(RemoveBy(q, less, i, down), less) <==> MayMove(q, less, i, down)
  {
    var r := Filled(q, i);
    var p := Parent(i);
    assert r[i] == q[|q| - 1] && r[p] == q[p];
    forall j | 0 < j < |r| && Parent(j) == i ensures r[j] == q[j] && !less(q[j], q[p]) {
      assert !less(q[j], q[i]) && !less(q[i], q[p]);
    }
    forall j | 0 < j < |r| && j != i && Parent(j) != i ensures !less(r[j], r[Parent(j)]) {
      assert !less(q[j], q[Parent(j)]);
    }
    if MayMove(q, less, i, down) {
      if down {
        assert HeapButDown(r, less, i, 0);
        DownRepairs(r, less, i, 0);
      } else {
        assert HeapButUp(r, less, i);
        UpRepairs(r, less, i);
      }
    } else {
      StaysBroken(r, less, i, down);
    }
  }

  /** An entry in the wrong place that is sent the wrong way does not move. */
  lemma StaysBroken<T(!new)>(r: seq<T>, less: (T, T) -> bool, i: nat, down: bool)
    requires StrictWeakOrder(less) && 0 < i < |r|
    requires forall j | 0 < j < |r| && Parent(j) == i :: !less(r[j], r[Parent(i)])
    requires if down then less(r[i], r[Parent(i)]) else exists j :: 0 < j < |r| && Parent(j) == i && less(r[j], r[i])
    ensures !Heap(if down then Down(r, less, i) else Up(r, less, i), less)
  {
    if down {
      FirstIsFirst(r, less, i);
      assert First(r, less, i) == i;
    } else {
      var j :| 0 < j < |r| && Parent(j) == i && less(r[j], r[i]);
      assert !less(r[i], r[Parent(i)]);
    }
  }

  lemma RemoveMultiset<T>(q: seq<T>, less: (T, T) -> bool, i: nat, down: bool)
    requires i < |q|
    ensures multiset(RemoveBy(q, less, i, down)) == multiset(q) - multiset{q[i]}
  {
    FilledMultiset(q, i);
    DownKeepsEntries(Filled(q, i), less, i);
    if i == |q| - 1 {
      assert Filled(q, i) == q[..|q| - 1];
    } else {
      UpKeepsEntries(Filled(q, i), less, i);
    }
  }

  /** Removal from any position of a heap, with the key unchanged, leaves a heap. */
  lemma RemoveKeepsHeap<T(!new)>(q: seq<T>, less: (T, T) -> bool, i: nat)
    requires StrictWeakOrder(less) && Heap(q, less) && i < |q|
    ensures Heap(Remove(q, less, i), less) && multiset(Remove(q, less, i)) == multiset(q) - multiset{q[i]}
  {
    RemoveMultiset(q, less, i, less(q[i], q[|q| - 1]));
    if i == 0 {
      PopKeepsHeap(q, less);
    } else if i < |q| - 1 {
      var x := q[|q| - 1];
      if less(q[i], x) {
        assert !less(q[i], q[Parent(i)]);
      } else {
        forall j | 0 < j < |q| - 1 && Parent(j) == i ensures !less(q[j], x) {
          assert !less(q[j], q[i]);
        }
      }
      RemoveByIff(q, less, i, less(q[i], x));
    }
  }

  /** Rebuilding makes a heap of any array. */
  lemma {:induction false} RebuildMakesHeap<T(!new)>(q: seq<T>, less: (T, T) -> bool, n: nat)
    requires StrictWeakOrder(less) && n <= |q| && HeapFrom(q, less, n)
    ensures Heap(Rebuild(q, less, n), less) && multiset(Rebuild(q, less, n)) == multiset(q)
    decreases n
  {
    if n > 0 {
      DownRepairs(q, less, n - 1, n - 1);
      DownKeepsEntries(q, less, n - 1);
      RebuildMakesHeap(Down(q, less, n - 1), less, n - 1);
    }
  }

  // ------------------------------------------------------------- orders that agree

  /** Two comparisons say the same about all entries of `q`. */
  ghost predicate Agree<T(!new)>(q: seq<T>, less: (T, T) -> bool, other: (T, T) -> bool)
  {
    forall a, b | a in q && b in q :: less(a, b) == other(a, b)
  }

  lemma AgreePermuted<T(!new)>(q: seq<T>, r: seq<T>, less: (T, T) -> bool, other: (T, T) -> bool)
    requires Agree(q, less, other) && multiset(r) == multiset(q)
    ensures Agree(r, less, other)
  {
    forall a | a in r ensures a in q { assert a in multiset(r); }
  }

  lemma {:induction false} UpAgrees<T(!new)>(q: seq<T>, less: (T, T) -> bool, other: (T, T) -> bool, i: nat)
    requires Agree(q, less, other) && i < |q|
    ensures Up(q, less, i) == Up(q, other, i)
    decreases i
  {
    if i > 0 {
      SwapKeepsEntries(q, Parent(i), i);
      AgreePermuted(q, Swapped(q, Parent(i), i), less, other);
      UpAgrees(Swapped(q, Parent(i), i), less, other, Parent(i));
    }
  }

  lemma {:induction false} DownAgrees<T(!new)>(q: seq<T>, less: (T, T) -> bool, other: (T, T) -> bool, i: nat)
    requires Agree(q, less, other)
    ensures Down(q, less, i) == Down(q, other, i)
    decreases |q| - i
  {
    if i < |q| {
      var m := First(q, less, i);
      assert m == First(q, other, i);
      if m != i {
        SwapKeepsEntries(q, i, m);
        AgreePermuted(q, Swapped(q, i, m), less, other);
        DownAgrees(Swapped(q, i, m), less, other, m);
      }
    }
  }

  /** The key of the removed entry matters only for the direction its replacement moves. */
  lemma RemovalAgrees<T(!new)>(q: seq<T>, less: (T, T) -> bool, other: (T, T) -> bool, i: nat, down: bool)
    requires i < |q| && Agree(Filled(q, i), less, other)
    ensures RemoveBy(q, less, i, down) == RemoveBy(q, other, i, down)
  {
    DownAgrees(Filled(q, i), less, other, i);
    if i < |q| - 1 { UpAgrees(Filled(q, i), less, other, i); }
  }

  // --------------------------------------------------------------------- in place

  /**
   * nghttp2_pq: entries in an array, each knowing its own position.  `index` stands for the
   * index members of the entries.
   */
  class Pq<T(!new, ==)> {
    var q: array<T>
    var length: nat
    var index: map<T, nat>
    /** Any entry, to fill the unused part of a larger array. */
    const filler: T

    ghost predicate Valid()
      reads this, q
    {
      length <= q.Length && Indexed(q[..length], index)
    }

    ghost function Contents(): seq<T>
      requires Valid()
      reads this, q
    {
      q[..length]
    }

    constructor (filler: T)
      ensures Valid() && Contents() == [] && fresh(q)
    {
      this.filler := filler;
      q := new T[0](_ => filler);
      length := 0;
      index := map[];
    }

    method Swap(i: nat, j: nat)
      requires Valid() && i < length && j < length
      modifies this`index, q
      ensures Valid() && Contents() == Swapped(old(Contents()), i, j)
    {
      ghost var was := q[..length];
      var t := q[i];
      q[i] := q[j];
      index := index[q[i] := i];
      q[j] := t;
      index := index[q[j] := j];
      assert q[..length] == Swapped(was, i, j);
    }

    method BubbleUp(at: nat, less: (T, T) -> bool)
      requires Valid() && at < length
      modifies this`index, q
      ensures Valid() && Contents() == Up(old(Contents()), less, at)
    {
      var i: nat := at;
      while i != 0
        invariant Valid() && i < length && Up(Contents(), less, i) == Up(old(Contents()), less, at)
      {
        var parent := (i - 1) / 2;
        if !less(q[i], q[parent]) {
          return;
        }
        Swap(parent, i);
        i := parent;
      }
    }

    method BubbleDown(at: nat, less: (T, T) -> bool)
      requires Valid()
      modifies this`index, q
      ensures Valid() && Contents() == Down(old(Contents()), less, at)
    {
      var i: nat := at;
      while i < length
        invariant Valid() && Down(Contents(), less, i) == Down(old(Contents()), less, at)
        decreases length - i
      {
        var j, min := 2 * i + 1, i;
        if j < length && less(q[j], q[min]) {
          min := j;
        }
        if j + 1 < length && less(q[j + 1], q[min]) {
          min := j + 1;
        }
        assert min == First(Contents(), less, i);
        if min == i {
          return;
        }
        Swap(i, min);
        i := min;
      }
    }

    /** Doubles the array when it is full. */
    method Grow()
      requires Valid()
      modifies this`q
      ensures Valid() && Contents() == old(Contents()) && length < q.Length && (q == old(q) || fresh(q))
    {
      if q.Length <= length {
        var capacity := Max(4, q.Length * 2);
        var nq := new T[capacity](_ => filler);
        forall i | 0 <= i < length {
          nq[i] := q[i];
        }
        assert nq[..length] == q[..length];
        q := nq;
      }
    }

    method PushEntry(x: T, less: (T, T) -> bool)
      requires Valid() && x !in Contents()
      modifies this, q
      ensures Valid() && Contents() == Push(old(Contents()), less, x) && (q == old(q) || fresh(q))
    {
      Grow();
      Append(x);
      BubbleUp(length - 1, less);
    }

    method Append(x: T)
      requires Valid() && x !in Contents() && length < q.Length
      modifies this`index, this`length, q
      ensures Valid() && Contents() == old(Contents()) + [x]
    {
      ghost var was := Contents();
      q[length] := x;
      index := index[x := length];
      length := length + 1;
      assert q[..length] == was + [x];
      forall i | 0 <= i < |was| ensures was[i] != x { assert was[i] in was; }
    }

    method Top() returns (r: Option<T>)
      requires Valid()
      ensures r == if Contents() == [] then None else Some(Contents()[0])
    {
      r := if length == 0 then None else Some(q[0]);
    }

    /** Puts the last entry in the place of entry `i`. */
    method Fill(i: nat)
      requires Valid() && i < length
      modifies this`index, this`length, q
      ensures Valid() && Contents() == Filled(old(Contents()), i)
    {
      ghost var was := Contents();
      q[i] := q[length - 1];
      index := index[q[i] := i];
      length := length - 1;
      assert q[..length] == Filled(was, i);
    }

    method PopEntry(less: (T, T) -> bool)
      requires Valid()
      modifies this`index, this`length, q
      ensures Valid() && Contents() == Pop(old(Contents()), less)
    {
      if length > 0 {
        Fill(0);
        BubbleDown(0, less);
      }
    }

    /** Removes an entry found through its own index. */
    method RemoveEntry(item: T, less: (T, T) -> bool)
      requires Valid() && item in Contents()
      modifies this`index, this`length, q
      ensures Valid() && Contents() == Remove(old(Contents()), less, old(index)[item])
      ensures old(Contents())[old(index)[item]] == item
    {
      var i := index[item];
      if i == 0 {
        PopEntry(less);
      } else if i == length - 1 {
        length := length - 1;
      } else {
        Fill(i);
        if less(item, q[i]) {
          BubbleDown(i, less);
        } else {
          BubbleUp(i, less);
        }
      }
    }

    /** nghttp2_pq_update after the keys have changed. */
    method Update(less: (T, T) -> bool)
      requires Valid()
      modifies this`index, q
      ensures Valid() && Contents() == Rebuild(old(Contents()), less, |old(Contents())|)
    {
      var i: nat := length;
      ghost var was := Contents();
      while i > 0
        invariant Valid() && i <= length == |was|
        invariant Rebuild(Contents(), less, i) == Rebuild(was, less, |was|)
      {
        BubbleDown(i - 1, less);
        i := i - 1;
      }
    }
  }

  /** Every entry's index is its position. */
  ghost predicate Indexed<T>(s: seq<T>, index: map<T, nat>)
  {
    forall i | 0 <= i < |s| :: s[i] in index && index[s[i]] == i
  }
}
