/**
 * The map from identifiers to streams (lib/nghttp2_map.c): a table of chains that is
 * resized as it fills, for any hash function that stays in range.
 */
module StreamMap {
  import opened Bytes

  datatype Entry<V> = Entry(key: int, value: V)

  type Chain<V> = seq<Entry<V>>

  /** What a table of `n` chains hashes keys with. */
  type Hash = (int, nat) -> nat

  const InitialLength: nat := 256

  // ------------------------------------------------------------------- what a table means

  predicate KeysDiffer<V>(c: Chain<V>) { forall i, j | 0 <= i < j < |c| :: c[i].key != c[j].key }

  /** Chain `i` of a table of `n` holds entries of `m` that hash to `i`. */
  predicate ChainOk<V(==)>(c: Chain<V>, i: nat, n: nat, hash: Hash, m: map<int, V>)
  {
    && KeysDiffer(c)
    && forall j | 0 <= j < |c| :: hash(c[j].key, n) == i && c[j].key in m && m[c[j].key] == c[j].value
  }

  predicate InChain<V>(c: Chain<V>, key: int) { exists j :: 0 <= j < |c| && c[j].key == key }

  /** `key` is found where it hashes to. */
  predicate Stored<V>(t: seq<Chain<V>>, hash: Hash, key: int)
  {
    hash(key, |t|) < |t| && InChain(t[hash(key, |t|)], key)
  }

  /** The table stands for the map `m`. */
  ghost predicate Refines<V>(t: seq<Chain<V>>, hash: Hash, m: map<int, V>)
  {
    && (forall i: nat {:trigger ChainOk(t[i], i, |t|, hash, m)} | i < |t| :: ChainOk(t[i], i, |t|, hash, m))
    && (forall k {:trigger Stored(t, hash, k)} | k in m :: Stored(t, hash, k))
  }

  ghost predicate InRange(hash: Hash) { forall k, n: nat | n > 0 :: hash(k, n) < n }

  /** A key is in its chain iff it is in the map. */
  lemma ChainDecides<V>(t: seq<Chain<V>>, hash: Hash, m: map<int, V>, key: int)
    requires Refines(t, hash, m) && hash(key, |t|) < |t|
    ensures InChain(t[hash(key, |t|)], key) <==> key in m
  {
    var h := hash(key, |t|);
    assert ChainOk(t[h], h, |t|, hash, m);
    if key in m { assert Stored(t, hash, key); }
  }

  // ------------------------------------------------------------------------ insertion

  /** insert: fails iff the key is there, else puts the entry in front of its chain. */
  method Insert<V>(t0: seq<Chain<V>>, hash: Hash, e: Entry<V>, ghost m: map<int, V>) returns (ok: bool, t: seq<Chain<V>>)
    requires InRange(hash) && t0 != [] && Refines(t0, hash, m)
    ensures ok <==> e.key !in m
    ensures |t| == |t0| && (!ok ==> t == t0) && (ok ==> Refines(t, hash, m[e.key := e.value]))
  {
    var h := hash(e.key, |t0|);
    ChainDecides(t0, hash, m, e.key);
    var j := 0;
    while j < |t0[h]|
      invariant 0 <= j <= |t0[h]| && forall i | 0 <= i < j :: t0[h][i].key != e.key
    {
      if t0[h][j].key == e.key {
        return false, t0;
      }
      j := j + 1;
    }
    InsertedRefines(t0, hash, m, e);
    return true, t0[h := [e] + t0[h]];
  }

  lemma InsertedRefines<V>(t: seq<Chain<V>>, hash: Hash, m: map<int, V>, e: Entry<V>)
    requires InRange(hash) && t != [] && Refines(t, hash, m) && e.key !in m
    ensures Refines(t[hash(e.key, |t|) := [e] + t[hash(e.key, |t|)]], hash, m[e.key := e.value])
  {
    var h := hash(e.key, |t|);
    var r, mm := t[h := [e] + t[h]], m[e.key := e.value];
    forall i: nat | i < |r| ensures ChainOk(r[i], i, |r|, hash, mm) { assert ChainOk(t[i], i, |t|, hash, m); }
    forall k | k in mm ensures Stored(r, hash, k) {
      if k == e.key {
        assert r[h][0].key == k;
      } else {
        assert Stored(t, hash, k);
        var g := hash(k, |t|);
        var j :| 0 <= j < |t[g]| && t[g][j].key == k;
        assert r[g][if g == h then j + 1 else j].key == k;
      }
    }
  }

  // ------------------------------------------------------------------------- resizing

  /** `k` is in a chain before `i`, or among the first `j` entries of chain `i`. */
  predicate Before<V>(t: seq<Chain<V>>, hash: Hash, k: int, i: nat, j: nat)
  {
    hash(k, |t|) < i || (hash(k, |t|) == i < |t| && j <= |t[i]| && InChain(t[i][..j], k))
  }

  /** The part of `m` that is moved when the walk over the table has come to entry `j` of chain `i`. */
  function Moved<V>(t: seq<Chain<V>>, hash: Hash, m: map<int, V>, i: nat, j: nat): map<int, V>
  {
    map k | k in m && Before(t, hash, k, i, j) :: m[k]
  }

  lemma MovedNext<V>(t: seq<Chain<V>>, hash: Hash, m: map<int, V>, i: nat, j: nat)
    requires Refines(t, hash, m) && i < |t| && j < |t[i]|
    ensures
      var e := t[i][j];
      e.key !in Moved(t, hash, m, i, j) && Moved(t, hash, m, i, j + 1) == Moved(t, hash, m, i, j)[e.key := e.value]
  {
    assert ChainOk(t[i], i, |t|, hash, m);
    var c, e := t[i], t[i][j];
    forall k ensures InChain(c[..j + 1], k) <==> InChain(c[..j], k) || k == e.key {
      if InChain(c[..j], k) {
        var q :| 0 <= q < j && c[..j][q].key == k;
        assert c[..j + 1][q].key == k;
      }
      if k == e.key { assert c[..j + 1][j].key == k; }
    }
  }

  lemma MovedChain<V>(t: seq<Chain<V>>, hash: Hash, m: map<int, V>, i: nat)
    requires Refines(t, hash, m) && i < |t|
    ensures Moved(t, hash, m, i, |t[i]|) == Moved(t, hash, m, i + 1, 0)
  {
    assert t[i][..|t[i]|] == t[i];
    forall k | k in m ensures Before(t, hash, k, i, |t[i]|) <==> Before(t, hash, k, i + 1, 0) { assert Stored(t, hash, k); }
  }

  lemma AllMoved<V>(t: seq<Chain<V>>, hash: Hash, m: map<int, V>)
    requires Refines(t, hash, m)
    ensures Moved(t, hash, m, |t|, 0) == m
  {
    forall k | k in m ensures Before(t, hash, k, |t|, 0) { assert Stored(t, hash, k); }
  }

  lemma NoneMoved<V>(t: seq<Chain<V>>, hash: Hash, m: map<int, V>)
    ensures t != [] ==> Moved(t, hash, m, 0, 0) == map[]
  {}

  /** resize: the new table stands for the same map. */
  method Resize<V>(t0: seq<Chain<V>>, hash: Hash, length: nat, ghost m: map<int, V>) returns (t: seq<Chain<V>>)
    requires InRange(hash) && t0 != [] && Refines(t0, hash, m) && length > 0
    ensures |t| == length && Refines(t, hash, m)
  {
    t := seq(length, _ => []);
    var i := 0;
    NoneMoved(t0, hash, m);
    while i < |t0|
      invariant 0 <= i <= |t0| && |t| == length && Refines(t, hash, Moved(t0, hash, m, i, 0))
    {
      t := MoveChain(t0, hash, t, i, m);
      i := i + 1;
    }
    AllMoved(t0, hash, m);
  }

  /** Moves the entries of one chain. */
  method MoveChain<V>(t0: seq<Chain<V>>, hash: Hash, t1: seq<Chain<V>>, i: nat, ghost m: map<int, V>) returns (t: seq<Chain<V>>)
    requires InRange(hash) && Refines(t0, hash, m) && i < |t0| && t1 != [] && Refines(t1, hash, Moved(t0, hash, m, i, 0))
    ensures |t| == |t1| && Refines(t, hash, Moved(t0, hash, m, i + 1, 0))
  {
    t := t1;
    var j := 0;
    while j < |t0[i]|
      invariant 0 <= j <= |t0[i]| && |t| == |t1| && Refines(t, hash, Moved(t0, hash, m, i, j))
    {
      MovedNext(t0, hash, m, i, j);
      var _, next := Insert(t, hash, t0[i][j], Moved(t0, hash, m, i, j));
      t := next;
      j := j + 1;
    }
    MovedChain(t0, hash, m, i);
  }

  // -------------------------------------------------------------------------- removal

  lemma RemovedRefines<V>(t: seq<Chain<V>>, hash: Hash, m: map<int, V>, key: int, j: nat)
    requires Refines(t, hash, m) && hash(key, |t|) < |t| && j < |t[hash(key, |t|)]| && t[hash(key, |t|)][j].key == key
    ensures
      var h := hash(key, |t|);
      key in m && Refines(t[h := t[h][..j] + t[h][j + 1..]], hash, m - {key})
  {
    var h := hash(key, |t|);
    var r, mm := t[h := t[h][..j] + t[h][j + 1..]], m - {key};
    assert ChainOk(t[h], h, |t|, hash, m);
    forall i: nat | i < |r| ensures ChainOk(r[i], i, |r|, hash, mm) { assert ChainOk(t[i], i, |t|, hash, m); }
    forall k | k in mm ensures Stored(r, hash, k) {
      assert Stored(t, hash, k);
      var g := hash(k, |t|);
      var q :| 0 <= q < |t[g]| && t[g][q].key == k;
      assert r[g][if g == h && q > j then q - 1 else q].key == k;
    }
  }

  // -------------------------------------------------------------------------- the map

  class StreamMap<V> {
    const hash: Hash
    var table: seq<Chain<V>>
    var size: nat
    ghost var contents: map<int, V>

    /** The table stands for the contents, the size is their number and the load at most 3/4. */
    ghost predicate Valid()
      reads this
    {
      && InRange(hash) && InitialLength <= |table| && Refines(table, hash, contents)
      && size == |contents| && size * 4 <= |table| * 3
    }

    constructor (hash: Hash)
      requires InRange(hash)
      ensures Valid() && contents == map[] && this.hash == hash
    {
      this.hash := hash;
      table, size := seq(InitialLength, _ => []), 0;
      contents := map[];
    }

    /** nghttp2_map_find. */
    method Find(key: int) returns (r: Option<V>)
      requires Valid()
      ensures r == if key in contents then Some(contents[key]) else None
    {
      var h := hash(key, |table|);
      ChainDecides(table, hash, contents, key);
      assert ChainOk(table[h], h, |table|, hash, contents);
      var j := 0;
      while j < |table[h]|
        invariant 0 <= j <= |table[h]| && forall i | 0 <= i < j :: table[h][i].key != key
      {
        if table[h][j].key == key {
          return Some(table[h][j].value);
        }
        j := j + 1;
      }
      return None;
    }

    /** nghttp2_map_insert: fails iff the key is present, and then the contents stay. */
    method Put(key: int, value: V) returns (ok: bool)
      requires Valid()
      modifies this
      ensures Valid() && (ok <==> key !in old(contents))
      ensures contents == if ok then old(contents)[key := value] else old(contents)
    {
      if (size + 1) * 4 > |table| * 3 {
        table := Resize(table, hash, |table| * 2, contents);
      }
      var t;
      ok, t := Insert(table, hash, Entry(key, value), contents);
      if ok {
        table, size, contents := t, size + 1, contents[key := value];
      }
    }

    /** nghttp2_map_remove: fails iff the key is not there. */
    method Remove(key: int) returns (ok: bool)
      requires Valid()
      modifies this
      ensures Valid() && (ok <==> key in old(contents)) && contents == old(contents) - {key}
    {
      var h := hash(key, |table|);
      ChainDecides(table, hash, contents, key);
      var j := 0;
      while j < |table[h]|
        invariant 0 <= j <= |table[h]| && forall i | 0 <= i < j :: table[h][i].key != key
        invariant table == old(table) && size == old(size) && contents == old(contents)
      {
        if table[h][j].key == key {
          RemovedRefines(table, hash, contents, key, j);
          assert (contents - {key}).Keys == contents.Keys - {key};
          table, size, contents := table[h := table[h][..j] + table[h][j + 1..]], size - 1, contents - {key};
          return true;
        }
        j := j + 1;
      }
      return false;
    }
  }
}
