/** The article's disk cache: four databases kept in step, two of them ordered indexes that are
    walked from their cheap end. */
module Cache {
  import opened Bytes
  import opened Tables
  import opened Doubles

  datatype Meta = Meta(stored: Double, expire: Double, accessed: Double, size: nat,
                       blob: Option<Bytes>)

  /** The four databases. The indexes have empty values. */
  datatype State = State(
    values: Table<Bytes>, meta: Table<Meta>, expiry: Table<Bytes>, accessed: Table<Bytes>)

  const NO_RECORDS := State(Empty(), Empty(), Empty(), Empty())

  function IndexKey(when: Double, key: Bytes): Bytes { Be8(when) + key }

  datatype Entry = Entry(when: Pattern, key: Bytes)

  function IndexOf(entry: Bytes): Entry
    requires |entry| >= 8
  {
    Entry(Un8(entry[..8]), entry[8..])
  }

  lemma IndexRoundTrip(when: Double, key: Bytes)
    ensures |IndexKey(when, key)| >= 8 && IndexOf(IndexKey(when, key)) == Entry(when, key)
  {
    DecodesDouble(when);
    assert IndexKey(when, key)[..8] == Be8(when) && IndexKey(when, key)[8..] == key;
  }

  // -------------------------------------------------------------------------
  // What keeps the four in step
  // -------------------------------------------------------------------------

  function Expiries(meta: map<Bytes, Meta>): map<Bytes, Double> { map k | k in meta :: meta[k].expire }
  function Accesses(meta: map<Bytes, Meta>): map<Bytes, Double> { map k | k in meta :: meta[k].accessed }

  /** The index has the entry of every key, and no others. */
  predicate IndexedBy(index: map<Bytes, Bytes>, times: map<Bytes, Double>) {
    && (forall k :: k in times ==> IndexKey(times[k], k) in index)
    && (forall e :: e in index ==>
          |e| >= 8 && e[8..] in times && e == IndexKey(times[e[8..]], e[8..]))
  }

  /** Each index has exactly the entries its metadata calls for, and exactly the keys without a
      blob have a value. */
  predicate InStep(s: State) {
    && Wf(s.meta)
    && Index(s.expiry, Expiries(s.meta.data))
    && Index(s.accessed, Accesses(s.meta.data))
    && Inline(s.values, s.meta.data)
  }

  predicate Index(t: Table<Bytes>, times: map<Bytes, Double>) { Wf(t) && IndexedBy(t.data, times) }

  predicate Inline(t: Table<Bytes>, meta: map<Bytes, Meta>) {
    && Wf(t)
    && (forall k :: k in meta && meta[k].blob.None? ==> k in t.data)
    && (forall k :: k in t.data ==> k in meta && meta[k].blob.None?)
  }

  /** The same as a set: the entries are the pairs of time and key that the metadata gives. */
  lemma IndexIsItsPairs(index: map<Bytes, Bytes>, times: map<Bytes, Double>)
    ensures IndexedBy(index, times) <==>
            index.Keys == (set k | k in times :: IndexKey(times[k], k))
  {}

  lemma IndexRemoved(index: map<Bytes, Bytes>, times: map<Bytes, Double>, key: Bytes)
    requires IndexedBy(index, times) && key in times
    ensures IndexedBy(index - {IndexKey(times[key], key)}, times - {key})
  {}

  lemma IndexAdded(index: map<Bytes, Bytes>, times: map<Bytes, Double>, key: Bytes, d: Double)
    requires IndexedBy(index, times) && key !in times
    ensures IndexedBy(index[IndexKey(d, key) := []], times[key := d])
  {}

  /** forget(): remove a key everywhere it appears. */
  function Forget(s: State, key: Bytes): State {
    if key !in s.meta.data then s
    else
      var m := s.meta.data[key];
      State(Del(s.values, key), Del(s.meta, key),
            Del(s.expiry, IndexKey(m.expire, key)), Del(s.accessed, IndexKey(m.accessed, key)))
  }

  function Add(s: State, key: Bytes, payload: Bytes, m: Meta): State {
    State(if m.blob.None? then Put(s.values, key, payload) else s.values,
          Put(s.meta, key, m),
          Put(s.expiry, IndexKey(m.expire, key), []),
          Put(s.accessed, IndexKey(m.accessed, key), []))
  }

  /** cache_set(): drop the old record, then write the new one. A large payload goes to a blob. */
  function Set(s: State, key: Bytes, payload: Bytes, m: Meta): State {
    Add(Forget(s, key), key, payload, m)
  }

  lemma IndexDel(t: Table<Bytes>, times: map<Bytes, Double>, key: Bytes)
    requires Index(t, times) && key in times
    ensures Index(Del(t, IndexKey(times[key], key)), times - {key})
  {
    DelWf(t, IndexKey(times[key], key));
    IndexRemoved(t.data, times, key);
  }

  lemma IndexPut(t: Table<Bytes>, times: map<Bytes, Double>, key: Bytes, d: Double)
    requires Index(t, times) && key !in times
    ensures Index(Put(t, IndexKey(d, key), []), times[key := d])
  {
    PutWf(t, IndexKey(d, key), []);
    IndexAdded(t.data, times, key, d);
  }

  lemma InlineDel(t: Table<Bytes>, meta: map<Bytes, Meta>, key: Bytes)
    requires Inline(t, meta)
    ensures Inline(Del(t, key), meta - {key})
  {
    DelWf(t, key);
  }

  lemma InlinePut(t: Table<Bytes>, meta: map<Bytes, Meta>, key: Bytes, payload: Bytes, m: Meta)
    requires Inline(t, meta) && key !in meta
    ensures Inline(if m.blob.None? then Put(t, key, payload) else t, meta[key := m])
  {
    PutWf(t, key, payload);
  }

  lemma TimesWithout(meta: map<Bytes, Meta>, key: Bytes)
    ensures Expiries(meta - {key}) == Expiries(meta) - {key}
    ensures Accesses(meta - {key}) == Accesses(meta) - {key}
  {}

  lemma TimesWith(meta: map<Bytes, Meta>, key: Bytes, m: Meta)
    ensures Expiries(meta[key := m]) == Expiries(meta)[key := m.expire]
    ensures Accesses(meta[key := m]) == Accesses(meta)[key := m.accessed]
  {}

  lemma ForgetInStep(s: State, key: Bytes)
    requires InStep(s)
    ensures InStep(Forget(s, key)) && Forget(s, key).meta.data == s.meta.data - {key}
  {
    if key in s.meta.data {
      DelWf(s.meta, key);
      IndexDel(s.expiry, Expiries(s.meta.data), key);
      IndexDel(s.accessed, Accesses(s.meta.data), key);
      InlineDel(s.values, s.meta.data, key);
      TimesWithout(s.meta.data, key);
    }
  }

  lemma AddInStep(s: State, key: Bytes, payload: Bytes, m: Meta)
    requires InStep(s) && key !in s.meta.data
    ensures InStep(Add(s, key, payload, m))
  {
    PutWf(s.meta, key, m);
    IndexPut(s.expiry, Expiries(s.meta.data), key, m.expire);
    IndexPut(s.accessed, Accesses(s.meta.data), key, m.accessed);
    InlinePut(s.values, s.meta.data, key, payload, m);
    TimesWith(s.meta.data, key, m);
  }

  lemma SetInStep(s: State, key: Bytes, payload: Bytes, m: Meta)
    requires InStep(s)
    ensures InStep(Set(s, key, payload, m))
  {
    var f := Forget(s, key);
    ForgetInStep(s, key);
    AddInStep(f, key, payload, m);
  }

  lemma SetMeta(s: State, key: Bytes, payload: Bytes, m: Meta)
    ensures Set(s, key, payload, m).meta.data == s.meta.data[key := m]
  {}
}
