/** A database as libmdbx keeps one: records in strictly increasing key order. */
module Tables {
  import opened Bytes

  predicate Sorted(keys: seq<Bytes>) {
    forall i, j :: 0 <= i < j < |keys| ==> Less(keys[i], keys[j])
  }

  datatype Table<V> = Table(keys: seq<Bytes>, data: map<Bytes, V>)

  predicate Wf<V>(t: Table<V>) {
    && Sorted(t.keys)
    && (forall k :: k in t.keys ==> k in t.data)
    && (forall k :: k in t.data ==> k in t.keys)
  }

  function Empty<V>(): Table<V> { Table([], map[]) }

  /** How many keys come before `k`: where it is, or where it would go. */
  function LowerBound(keys: seq<Bytes>, k: Bytes): (i: nat)
    ensures i <= |keys|
  {
    if keys == [] || !Less(keys[0], k) then 0 else 1 + LowerBound(keys[1..], k)
  }

  lemma {:induction false} LowerBoundSplits(keys: seq<Bytes>, k: Bytes)
    requires Sorted(keys)
    ensures forall j :: 0 <= j < LowerBound(keys, k) ==> Less(keys[j], k)
    ensures forall j :: LowerBound(keys, k) <= j < |keys| ==> !Less(keys[j], k)
  {
    if keys != [] {
      if Less(keys[0], k) {
        LowerBoundSplits(keys[1..], k);
        forall j | 0 < j < |keys| ensures keys[j] == keys[1..][j - 1] {}
      } else {
        forall j | 0 <= j < |keys| ensures !Less(keys[j], k) {
          if j > 0 && Less(keys[j], k) { LessTransitive(keys[0], keys[j], k); }
        }
      }
    }
  }

  lemma SortedPair(keys: seq<Bytes>, i: nat, j: nat)
    requires Sorted(keys) && i <= j < |keys|
    ensures i == j || Less(keys[i], keys[j])
  {}

  lemma InAtLowerBound(keys: seq<Bytes>, k: Bytes)
    requires Sorted(keys)
    ensures var i := LowerBound(keys, k); k in keys <==> i < |keys| && keys[i] == k
  {
    LowerBoundSplits(keys, k);
    var i := LowerBound(keys, k);
    if k in keys {
      var j :| 0 <= j < |keys| && keys[j] == k;
      LessIrreflexive(k);
      assert i <= j;
      SortedPair(keys, i, j);
    }
  }

  function Put<V>(t: Table<V>, k: Bytes, v: V): Table<V> {
    var i := LowerBound(t.keys, k);
    Table(if k in t.data then t.keys else t.keys[..i] + [k] + t.keys[i..], t.data[k := v])
  }

  function Del<V>(t: Table<V>, k: Bytes): Table<V> {
    var i := LowerBound(t.keys, k);
    Table(if k in t.data && i < |t.keys| then t.keys[..i] + t.keys[i + 1..] else t.keys,
          t.data - {k})
  }

  lemma PutSorted<V>(t: Table<V>, k: Bytes, v: V)
    requires Wf(t) && k !in t.data
    ensures Sorted(Put(t, k, v).keys)
  {
    var i := LowerBound(t.keys, k);
    var r := Put(t, k, v).keys;
    LowerBoundSplits(t.keys, k);
    forall a, b | 0 <= a < b < |r| ensures Less(r[a], r[b]) {
      if b == i {
      } else if a == i {
        assert r[b] == t.keys[b - 1];
        LessTotal(k, r[b]);
        assert r[b] in t.keys;
      } else {
        assert r[a] == t.keys[if a < i then a else a - 1];
        assert r[b] == t.keys[if b < i then b else b - 1];
      }
    }
  }

  /** Inserting one adds that one. */
  lemma PutIn(keys: seq<Bytes>, i: nat, k: Bytes, x: Bytes)
    requires i <= |keys|
    ensures x in keys[..i] + [k] + keys[i..] <==> x in keys || x == k
  {
    var r := keys[..i] + [k] + keys[i..];
    assert r[i] == k;
    if x in keys {
      var j :| 0 <= j < |keys| && keys[j] == x;
      assert r[if j < i then j else j + 1] == x;
    }
  }

  lemma PutWf<V>(t: Table<V>, k: Bytes, v: V)
    requires Wf(t)
    ensures Wf(Put(t, k, v))
  {
    if k !in t.data {
      PutSorted(t, k, v);
      forall x ensures x in Put(t, k, v).keys <==> x in t.keys || x == k {
        PutIn(t.keys, LowerBound(t.keys, k), k, x);
      }
    }
  }

  lemma DelSorted<V>(t: Table<V>, k: Bytes)
    requires Wf(t) && k in t.data
    ensures Sorted(Del(t, k).keys)
  {}

  /** Cutting one out of distinct keys loses that one. */
  lemma CutOut(keys: seq<Bytes>, i: nat, x: Bytes)
    requires i < |keys| && forall a, b :: 0 <= a < b < |keys| ==> keys[a] != keys[b]
    ensures x in keys[..i] + keys[i + 1..] <==> x in keys && x != keys[i]
  {}

  lemma DelWf<V>(t: Table<V>, k: Bytes)
    requires Wf(t)
    ensures Wf(Del(t, k))
  {
    if k in t.data {
      DelSorted(t, k);
      InAtLowerBound(t.keys, k);
      SortedDistinct(t.keys);
      forall x ensures x in Del(t, k).keys <==> x in t.keys && x != k {
        CutOut(t.keys, LowerBound(t.keys, k), x);
      }
    }
  }

  lemma SortedDistinct(keys: seq<Bytes>)
    requires Sorted(keys)
    ensures forall i, j :: 0 <= i < j < |keys| ==> keys[i] != keys[j]
  {
    forall i, j | 0 <= i < j < |keys| ensures keys[i] != keys[j] {
      LessIrreflexive(keys[i]);
    }
  }

  lemma HasMember(keys: seq<Bytes>)
    ensures keys != [] ==> exists k :: k in keys
  {
    if keys != [] { assert keys[0] in keys; }
  }

  /** A set of keys has one sorted listing. */
  lemma {:induction false} SortedUnique(a: seq<Bytes>, b: seq<Bytes>)
    requires Sorted(a) && Sorted(b)
    requires forall k :: k in a <==> k in b
    ensures a == b
  {
    if a == [] {
      HasMember(b);
    } else {
      assert a[0] in a;
      assert b != [] by { assert a[0] in b; }
      assert b[0] in b;
      LeastFirst(a, b[0]);
      LeastFirst(b, a[0]);
      if a[0] != b[0] { LessAsymmetric(a[0], b[0]); }
      SortedDistinct(a);
      SortedDistinct(b);
      forall k ensures k in a[1..] <==> k in b[1..] {
        InTail(a, k);
        InTail(b, k);
      }
      SortedUnique(a[1..], b[1..]);
      assert a == [a[0]] + a[1..] && b == [b[0]] + b[1..];
    }
  }

  lemma LeastFirst(a: seq<Bytes>, k: Bytes)
    requires Sorted(a) && a != [] && k in a
    ensures a[0] == k || Less(a[0], k)
  {}

  lemma InTail(a: seq<Bytes>, k: Bytes)
    requires a != [] && forall i, j :: 0 <= i < j < |a| ==> a[i] != a[j]
    ensures k in a[1..] <==> k in a && k != a[0]
  {}
}
