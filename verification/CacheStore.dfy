/** The article's cache operations, step by step: each is one write transaction whose calls may
    fail, and which is dropped whole if one does. */
module CacheStore {
  import opened Bytes
  import opened Tables
  import opened Doubles
  import opened Cache
  import opened CacheOrder
  import Scan
  import Listing

  datatype Status = Done | Failed(rc: int) {
    predicate IsFailure() { Failed? }
    function PropagateFailure(): Status { this }
  }

  ghost predicate FailsAs(faults: nat -> int, st: Status) {
    st.Failed? ==> exists n :: faults(n) == st.rc != 0
  }

  /** What cache_set() leaves. */
  function Written(s: State, key: Bytes, payload: Bytes, expire: Double, now: Double, threshold: nat,
                   name: Bytes): State
  {
    Set(s, key, payload, Record(payload, expire, now, threshold, name))
  }

  function Record(payload: Bytes, expire: Double, now: Double, threshold: nat, name: Bytes): Meta {
    Meta(now, expire, now, |payload|, if |payload| > threshold then Some(name) else None)
  }

  /** What a write transaction sees of the four databases. The nth call fails with status
      `faults(n)` unless that is 0. */
  class Draft {
    var values: Table<Bytes>
    var meta: Table<Meta>
    var expiry: Table<Bytes>
    var accessed: Table<Bytes>
    var calls: nat
    const faults: nat -> int

    function View(): State
      reads this
    {
      State(values, meta, expiry, accessed)
    }

    constructor (s: State, faults: nat -> int)
      ensures View() == s && this.faults == faults
    {
      values, meta, expiry, accessed := s.values, s.meta, s.expiry, s.accessed;
      this.faults, calls := faults, 0;
    }

    method Attempt() returns (st: Status)
      modifies this`calls
      ensures FailsAs(faults, st)
    {
      var rc := faults(calls);
      calls := calls + 1;
      st := if rc == 0 then Done else Failed(rc);
    }

    method DeleteIndex(when: Double, accessTime: Double, key: Bytes) returns (st: Status)
      modifies this`calls, this`expiry, this`accessed
      ensures FailsAs(faults, st)
      ensures st.Done? ==> expiry == Del(old(expiry), IndexKey(when, key))
      ensures st.Done? ==> accessed == Del(old(accessed), IndexKey(accessTime, key))
    {
      var entry := IndexKey(when, key);
      :- Attempt();
      expiry := Del(expiry, entry);
      :- Attempt();
      accessed := Del(accessed, IndexKey(accessTime, key));
      st := Done;
    }

    /** forget(): reports whether there was a record. */
    method Forget(key: Bytes) returns (st: Status, found: bool)
      modifies this
      ensures FailsAs(faults, st)
      ensures st.Done? ==> View() == Cache.Forget(old(View()), key)
      ensures st.Done? ==> found == (key in old(meta.data))
    {
      found := false;
      :- Attempt();
      if key !in meta.data {
        return Done, false;
      }
      var m := meta.data[key];
      :- DeleteIndex(m.expire, m.accessed, key);
      :- Attempt();
      meta := Del(meta, key);
      :- Attempt();
      values := Del(values, key);
      return Done, true;
    }

    method PutIndex(when: Double, accessTime: Double, key: Bytes) returns (st: Status)
      modifies this`calls, this`expiry, this`accessed
      ensures FailsAs(faults, st)
      ensures st.Done? ==> expiry == Put(old(expiry), IndexKey(when, key), [])
      ensures st.Done? ==> accessed == Put(old(accessed), IndexKey(accessTime, key), [])
    {
      var entry := IndexKey(when, key);
      :- Attempt();
      expiry := Put(expiry, entry, []);
      :- Attempt();
      accessed := Put(accessed, IndexKey(accessTime, key), []);
      st := Done;
    }

    /** cache_set(), inside its transaction. */
    method Write(key: Bytes, payload: Bytes, expire: Double, now: Double, threshold: nat, name: Bytes)
      returns (st: Status)
      modifies this
      ensures FailsAs(faults, st)
      ensures st.Done? ==>
                View() == Written(old(View()), key, payload, expire, now, threshold, name)
    {
      var found :- Forget(key);
      var blob := None;
      if |payload| > threshold {
        blob := Some(name);
      } else {
        :- Attempt();
        values := Put(values, key, payload);
      }
      :- Attempt();
      meta := Put(meta, key, Meta(now, expire, now, |payload|, blob));
      :- PutIndex(expire, now, key);
      st := Done;
    }

    /** The first keys of an index, as they are listed. */
    method First(index: Table<Bytes>, limit: nat) returns (st: Status, entries: seq<Bytes>)
      requires Wf(index) && forall n :: faults(n) != Scan.NOTFOUND
      ensures FailsAs(faults, st)
      ensures st.Done? ==> entries == Scan.Take(index.keys, limit)
    {
      var rc, keys, payloads := Scan.ScanCall(index, limit, true, None, false, faults);
      Listing.StartsAtFirst(index.keys, limit);
      st, entries := if rc == 0 then Done else Failed(rc), keys;
    }

    /** The loop of cache_expire(): stop at the first entry that is still to come. */
    method ForgetDue(due: seq<Bytes>, now: Double) returns (st: Status, removed: nat)
      requires forall e :: e in due ==> IsEntry(e)
      modifies this
      ensures FailsAs(faults, st)
      ensures st.Done? ==> removed == DueRun(DecodeAll(due), now)
      ensures st.Done? ==> View() == ForgetAll(old(View()), DecodeAll(due)[..removed])
    {
      ghost var es := DecodeAll(due);
      removed := 0;
      for i := 0 to |due|
        invariant View() == ForgetAll(old(View()), es[..i])
        invariant removed == i && i <= DueRun(es, now)
      {
        var at := Decode(due[i]);
        if !Due(at.when, now) {
          break;
        }
        ForgetAllSnoc(old(View()), es, i);
        DueRunGoesOn(es, i, now);
        var _ :- Forget(at.key);
        removed := removed + 1;
      }
      st := Done;
    }

    /** cache_expire(), inside its transaction. */
    method RemoveDue(limit: nat, now: Double) returns (st: Status, removed: nat)
      requires InStep(View()) && forall n :: faults(n) != Scan.NOTFOUND
      modifies this
      ensures FailsAs(faults, st)
      ensures st.Done? ==> View() == Expire(old(View()), limit, now)
      ensures st.Done? ==> removed == DueRun(Scan.Take(Deadlines(old(View())), limit), now)
    {
      removed := 0;
      IndexIsEntries(expiry, Expiries(meta.data));
      var due :- First(expiry, limit);
      DecodeTake(expiry.keys, limit);
      removed :- ForgetDue(due, now);
      st := Done;
    }

    /** The loop of cache_evict(). */
    method ForgetEach(oldest: seq<Bytes>) returns (st: Status)
      requires forall e :: e in oldest ==> IsEntry(e)
      modifies this
      ensures FailsAs(faults, st)
      ensures st.Done? ==> View() == ForgetAll(old(View()), DecodeAll(oldest))
    {
      ghost var es := DecodeAll(oldest);
      for i := 0 to |oldest|
        invariant View() == ForgetAll(old(View()), es[..i])
      {
        ForgetAllSnoc(old(View()), es, i);
        var _ :- Forget(Decode(oldest[i]).key);
      }
      assert es[..|es|] == es;
      st := Done;
    }

    /** cache_evict(), inside its transaction. */
    method RemoveOldest(n: nat) returns (st: Status, removed: nat)
      requires InStep(View()) && forall i :: faults(i) != Scan.NOTFOUND
      modifies this
      ensures FailsAs(faults, st)
      ensures st.Done? ==> View() == Evict(old(View()), n)
      ensures st.Done? ==> removed == |Scan.Take(AccessTimes(old(View())), n)|
    {
      removed := 0;
      IndexIsEntries(accessed, Accesses(meta.data));
      var oldest :- First(accessed, n);
      DecodeTake(accessed.keys, n);
      :- ForgetEach(oldest);
      return Done, |oldest|;
    }
  }

  lemma ForgetAllSnoc(s: State, es: seq<Timed>, n: nat)
    requires n < |es|
    ensures ForgetAll(s, es[..n + 1]) == Cache.Forget(ForgetAll(s, es[..n]), es[n].key)
  {
    assert es[..n + 1][..n] == es[..n];
  }

  lemma DecodeTake(es: seq<Bytes>, n: nat)
    requires forall e :: e in es ==> IsEntry(e)
    ensures DecodeAll(Scan.Take(es, n)) == Scan.Take(DecodeAll(es), n)
  {}

  lemma DueRunGoesOn(es: seq<Timed>, n: nat, now: Double)
    requires n < |es| && n <= DueRun(es, now) && Due(es[n].when, now)
    ensures n < DueRun(es, now)
  {}

  // -------------------------------------------------------------------------
  // The cache
  // -------------------------------------------------------------------------

  lemma WriteInStep(s: State, key: Bytes, payload: Bytes, expire: Double, now: Double, threshold: nat,
                    name: Bytes)
    requires InStep(s)
    ensures InStep(Written(s, key, payload, expire, now, threshold, name))
  {
    SetInStep(s, key, payload, Record(payload, expire, now, threshold, name));
  }

  lemma EvictInStep(s: State, n: nat)
    requires InStep(s)
    ensures InStep(Evict(s, n))
  {
    ForgetAllInStep(s, Scan.Take(AccessTimes(s), n));
  }

  class DiskCache {
    var store: State

    ghost predicate Valid()
      reads this
    {
      InStep(store)
    }

    constructor ()
      ensures Valid() && store == NO_RECORDS
    {
      store := NO_RECORDS;
    }

    /** Commit, or lose everything the transaction did. */
    method Finish(d: Draft) returns (st: Status)
      modifies this, d`calls
      ensures FailsAs(d.faults, st)
      ensures d.View() == old(d.View())
      ensures store == if st.Done? then d.View() else old(store)
    {
      st := d.Attempt();
      if st.Done? {
        store := d.View();
      }
    }

    /** cache_set(). */
    method CacheSet(key: Bytes, payload: Bytes, expire: Double, now: Double, threshold: nat,
                    name: Bytes, faults: nat -> int)
      returns (st: Status)
      requires Valid() && forall n :: faults(n) != Scan.NOTFOUND
      modifies this
      ensures Valid() && FailsAs(faults, st)
      ensures store ==
              if st.Done? then Written(old(store), key, payload, expire, now, threshold, name)
              else old(store)
    {
      ghost var next := Written(store, key, payload, expire, now, threshold, name);
      WriteInStep(store, key, payload, expire, now, threshold, name);
      var d := new Draft(store, faults);
      assert d.View() == store;
      :- d.Write(key, payload, expire, now, threshold, name);
      assert d.View() == next;
      st := Finish(d);
    }

    method CacheDelete(key: Bytes, faults: nat -> int) returns (st: Status, found: bool)
      requires Valid() && forall n :: faults(n) != Scan.NOTFOUND
      modifies this
      ensures Valid() && FailsAs(faults, st)
      ensures store == if st.Done? then Cache.Forget(old(store), key) else old(store)
      ensures st.Done? ==> (found <==> key in old(store).meta.data)
    {
      ForgetInStep(store, key);
      var d := new Draft(store, faults);
      found :- d.Forget(key);
      st := Finish(d);
    }

    method CacheExpire(limit: nat, now: Double, faults: nat -> int)
      returns (st: Status, removed: nat)
      requires Valid() && forall n :: faults(n) != Scan.NOTFOUND
      modifies this
      ensures Valid() && FailsAs(faults, st)
      ensures store == if st.Done? then Expire(old(store), limit, now) else old(store)
      ensures st.Done? ==> removed == DueRun(Scan.Take(Deadlines(old(store)), limit), now)
    {
      removed := 0;
      ExpireInStep(store, limit, now);
      var d := new Draft(store, faults);
      removed :- d.RemoveDue(limit, now);
      st := Finish(d);
    }

    method CacheEvict(n: nat, faults: nat -> int) returns (st: Status, removed: nat)
      requires Valid() && forall i :: faults(i) != Scan.NOTFOUND
      modifies this
      ensures Valid() && FailsAs(faults, st)
      ensures store == if st.Done? then Evict(old(store), n) else old(store)
      ensures st.Done? ==> removed == |Scan.Take(AccessTimes(old(store)), n)|
    {
      removed := 0;
      EvictInStep(store, n);
      var d := new Draft(store, faults);
      removed :- d.RemoveOldest(n);
      st := Finish(d);
    }

    /** cache_get(). Without the assertion a record with neither blob nor value would be read as
        nothing; keeping the databases in step rules it out. */
    method CacheGet(key: Bytes, now: Double) returns (a: Answer)
      requires Valid()
      ensures a == Get(store, key, now)
      ensures a.Stored? ==> a.payload.Some?
    {
      if key !in store.meta.data {
        return Missing;
      }
      var m := store.meta.data[key];
      if !Below(Value(now), Value(m.expire)) {
        return Missing;
      }
      if m.blob.Some? {
        return Blob(m.blob.value, m.size);
      }
      assert key in store.values.data;
      return Stored(Some(store.values.data[key]));
    }

    /** cache_keys(): every key once, in order, for any chunk that makes progress. */
    method CacheKeys(chunk: nat) returns (seen: seq<Bytes>)
      requires Valid()
      ensures chunk >= 2 ==> Sorted(seen) && forall k :: k in seen <==> k in store.meta.data
    {
      var blank := map k | k in store.meta.data :: [];
      seen := Listing.KeysInChunks(Table(store.meta.keys, blank), chunk);
    }
  }

  // -------------------------------------------------------------------------
  // Whole histories
  // -------------------------------------------------------------------------

  datatype Op =
    | SetOp(key: Bytes, payload: Bytes, expire: Double, at: Double, threshold: nat, name: Bytes)
    | DeleteOp(key: Bytes)
    | ExpireOp(limit: nat, at: Double)
    | EvictOp(n: nat)

  function Apply(s: State, op: Op): State
    requires InStep(s)
  {
    match op
    case SetOp(key, payload, expire, at, threshold, name) =>
      Written(s, key, payload, expire, at, threshold, name)
    case DeleteOp(key) => Cache.Forget(s, key)
    case ExpireOp(limit, at) => Expire(s, limit, at)
    case EvictOp(n) => Evict(s, n)
  }

  lemma ApplyInStep(s: State, op: Op)
    requires InStep(s)
    ensures InStep(Apply(s, op))
  {
    match op
    case SetOp(key, payload, expire, at, threshold, name) =>
      WriteInStep(s, key, payload, expire, at, threshold, name);
    case DeleteOp(key) => ForgetInStep(s, key);
    case ExpireOp(limit, at) => ExpireInStep(s, limit, at);
    case EvictOp(n) => EvictInStep(s, n);
  }

  function Run(ops: seq<Op>): (s: State)
    ensures InStep(s)
  {
    if ops == [] then NO_RECORDS
    else
      var s := Run(ops[..|ops| - 1]);
      ApplyInStep(s, ops[|ops| - 1]);
      Apply(s, ops[|ops| - 1])
  }

  function Pairs(meta: map<Bytes, Meta>, times: map<Bytes, Double>): set<Bytes>
    requires times.Keys == meta.Keys
  {
    set k | k in meta :: IndexKey(times[k], k)
  }

  lemma IndexPairs(t: Table<Bytes>, meta: map<Bytes, Meta>, times: map<Bytes, Double>)
    requires Index(t, times) && times.Keys == meta.Keys
    ensures t.data.Keys == Pairs(meta, times)
  {}

  lemma InlineKeys(t: Table<Bytes>, meta: map<Bytes, Meta>)
    requires Inline(t, meta)
    ensures t.data.Keys == set k | k in meta && meta[k].blob.None?
  {}

  /** After any operations the indexes are the pairs the metadata calls for, and the records with
      a value are those without a blob. */
  lemma EveryRunInStep(ops: seq<Op>)
    ensures var s := Run(ops);
            && s.expiry.data.Keys == Pairs(s.meta.data, Expiries(s.meta.data))
            && s.accessed.data.Keys == Pairs(s.meta.data, Accesses(s.meta.data))
            && s.values.data.Keys == (set k | k in s.meta.data && s.meta.data[k].blob.None?)
  {
    var s := Run(ops);
    IndexPairs(s.expiry, s.meta.data, Expiries(s.meta.data));
    IndexPairs(s.accessed, s.meta.data, Accesses(s.meta.data));
    InlineKeys(s.values, s.meta.data);
  }

  predicate Unsigned(op: Op) { op.SetOp? ==> !op.expire.neg && !op.at.neg }

  predicate UnsignedTimes(meta: map<Bytes, Meta>) {
    forall k :: k in meta ==> !meta[k].expire.neg && !meta[k].accessed.neg
  }

  lemma ApplyMeta(s: State, op: Op)
    requires InStep(s) && Unsigned(op) && UnsignedTimes(s.meta.data)
    ensures UnsignedTimes(Apply(s, op).meta.data)
  {
    match op
    case SetOp(key, payload, expire, at, threshold, name) =>
      SetMeta(s, key, payload, Record(payload, expire, at, threshold, name));
    case DeleteOp(key) =>
    case ExpireOp(limit, at) => ExpireInStep(s, limit, at);
    case EvictOp(n) => ForgetAllMeta(s, Scan.Take(AccessTimes(s), n));
  }

  lemma {:induction false} RunsUnsigned(ops: seq<Op>)
    requires forall op :: op in ops ==> Unsigned(op)
    ensures UnsignedTimes(Run(ops).meta.data)
  {
    if ops != [] {
      RunsUnsigned(ops[..|ops| - 1]);
      ApplyMeta(Run(ops[..|ops| - 1]), ops[|ops| - 1]);
    }
  }

  /** After operations whose times have no sign bit, an expiry removes all that is due or as much as
      it may, and both it and an eviction remove the earliest. */
  lemma RunsExpireFully(ops: seq<Op>, limit: nat, now: Double)
    requires forall op :: op in ops ==> Unsigned(op)
    ensures var meta := Run(ops).meta.data;
            && |meta| - |Expire(Run(ops), limit, now).meta.data|
               == Min(limit, |DueKeys(Expiries(meta), now)|)
            && EarliestOut(Expiries(meta), Expire(Run(ops), limit, now).meta.data.Keys)
            && EarliestOut(Accesses(meta), Evict(Run(ops), limit).meta.data.Keys)
  {
    RunsUnsigned(ops);
    ExpiryIsComplete(Run(ops), limit, now);
    EvictionTakesOldest(Run(ops), limit);
    UnsignedEarliest(Accesses(Run(ops).meta.data), Evict(Run(ops), limit).meta.data.Keys);
  }

  // -------------------------------------------------------------------------
  // What a record says, and when it goes
  // -------------------------------------------------------------------------

  predicate Resets(op: Op, key: Bytes) { (op.SetOp? || op.DeleteOp?) && op.key == key }

  /** The record and the payload are those of this set. */
  predicate HoldsSet(s: State, op: Op) {
    && op.SetOp? && op.key in s.meta.data
    && var large := |op.payload| > op.threshold;
       && s.meta.data[op.key]
          == Meta(op.at, op.expire, op.at, |op.payload|, if large then Some(op.name) else None)
       && (!large ==> op.key in s.values.data && s.values.data[op.key] == op.payload)
  }

  /** An operation that does not reset a key either leaves its record and payload as they are, or
      removes it, as an eviction, or as an expiry after its deadline. */
  lemma ApplyKeeps(s: State, op: Op, key: Bytes)
    requires InStep(s) && !Resets(op, key)
    ensures Kept(s, Apply(s, op), key)
    ensures key in s.meta.data && key !in Apply(s, op).meta.data ==>
              op.EvictOp? || (op.ExpireOp? && Due(s.meta.data[key].expire, op.at))
  {
    match op
    case SetOp(k, payload, expire, at, threshold, name) => SetKeeps(s, op, key);
    case DeleteOp(k) => DeleteKeeps(s, k, key);
    case ExpireOp(limit, at) => ExpireKeeps(s, limit, at, key);
    case EvictOp(n) => ForgottenKeeps(s, Scan.Take(AccessTimes(s), n), key);
  }

  /** The record of `key`, if it is left at all, and its payload are as they were. */
  predicate Kept(s: State, r: State, key: Bytes) {
    key in r.meta.data ==>
      && key in s.meta.data && r.meta.data[key] == s.meta.data[key]
      && (key in s.values.data ==>
            key in r.values.data && r.values.data[key] == s.values.data[key])
  }

  lemma SetKeeps(s: State, op: Op, key: Bytes)
    requires InStep(s) && op.SetOp? && op.key != key
    ensures Kept(s, Apply(s, op), key) && (key in s.meta.data ==> key in Apply(s, op).meta.data)
  {
    SetMeta(s, op.key, op.payload, Record(op.payload, op.expire, op.at, op.threshold, op.name));
  }

  lemma DeleteKeeps(s: State, k: Bytes, key: Bytes)
    requires k != key
    ensures Kept(s, Cache.Forget(s, k), key)
    ensures key in s.meta.data ==> key in Cache.Forget(s, k).meta.data
  {}

  lemma ExpireKeeps(s: State, limit: nat, at: Double, key: Bytes)
    requires InStep(s)
    ensures Kept(s, Expire(s, limit, at), key)
    ensures key in s.meta.data && key !in Expire(s, limit, at).meta.data ==>
              Due(s.meta.data[key].expire, at)
  {
    ExpiryIsSound(s, limit, at);
    var due := Scan.Take(Deadlines(s), limit);
    ForgottenKeeps(s, due[..DueRun(due, at)], key);
  }

  lemma ForgottenKeeps(s: State, es: seq<Timed>, key: Bytes)
    requires InStep(s)
    ensures Kept(s, ForgetAll(s, es), key)
  {
    ForgetAllMeta(s, es);
    if key !in KeysOf(es) { ForgetAllValues(s, es, key); }
  }

  lemma SetHolds(s: State, op: Op)
    requires InStep(s) && op.SetOp?
    ensures HoldsSet(Apply(s, op), op)
  {
    SetMeta(s, op.key, op.payload, Record(op.payload, op.expire, op.at, op.threshold, op.name));
  }

  predicate LastSet(ops: seq<Op>, key: Bytes, i: nat) {
    && i < |ops| && ops[i].SetOp? && ops[i].key == key
    && forall j :: i < j < |ops| ==> !Resets(ops[j], key)
  }

  ghost predicate Told(ops: seq<Op>, s: State, key: Bytes) {
    key in s.meta.data ==> exists i: nat :: LastSet(ops, key, i) && HoldsSet(s, ops[i])
  }

  /** A record is there after `op` because that set it, or because it was there before. */
  predicate Came(s: State, op: Op, r: State, key: Bytes) {
    key in r.meta.data ==>
      if op.SetOp? && op.key == key then HoldsSet(r, op)
      else !Resets(op, key) && key in s.meta.data && Kept(s, r, key)
  }

  lemma ToldNext(ops: seq<Op>, s: State, op: Op, r: State, key: Bytes)
    requires Told(ops, s, key) && Came(s, op, r, key)
    ensures Told(ops + [op], r, key)
  {
    if key in r.meta.data {
      if op.SetOp? && op.key == key {
        assert LastSet(ops + [op], key, |ops|);
      } else {
        var i: nat :| LastSet(ops, key, i) && HoldsSet(s, ops[i]);
        LastSetNext(ops, op, key, i);
        assert (ops + [op])[i] == ops[i] && HoldsSet(r, ops[i]);
      }
    }
  }

  lemma RunCame(ops: seq<Op>, op: Op, key: Bytes)
    ensures Came(Run(ops), op, Run(ops + [op]), key)
  {
    RunNext(ops, op);
    RecordComesFrom(Run(ops), op, key);
  }

  /** After any operations a record is that of the last set of its key, and nothing reset it since. */
  lemma {:induction false} RecordsAreLastSet(ops: seq<Op>, key: Bytes)
    ensures Told(ops, Run(ops), key)
    decreases |ops|
  {
    if ops != [] {
      var front, last := ops[..|ops| - 1], ops[|ops| - 1];
      assert ops == front + [last];
      RecordsAreLastSet(front, key);
      RunCame(front, last, key);
      ToldNext(front, Run(front), last, Run(ops), key);
    }
  }

  lemma RunNext(ops: seq<Op>, op: Op)
    ensures Run(ops + [op]) == Apply(Run(ops), op)
  {
    assert (ops + [op])[..|ops|] == ops;
  }

  lemma RecordComesFrom(s: State, op: Op, key: Bytes)
    requires InStep(s)
    ensures Came(s, op, Apply(s, op), key)
  {
    if Resets(op, key) {
      if op.SetOp? { SetHolds(s, op); } else { ForgetInStep(s, key); }
    } else {
      ApplyKeeps(s, op, key);
    }
  }

  lemma LastSetNext(ops: seq<Op>, op: Op, key: Bytes, i: nat)
    requires LastSet(ops, key, i) && !Resets(op, key)
    ensures LastSet(ops + [op], key, i)
  {}

  lemma SameLastSet(ops: seq<Op>, s: State, key: Bytes, i: nat)
    requires LastSet(ops, key, i) && Told(ops, s, key) && key in s.meta.data
    ensures HoldsSet(s, ops[i])
  {
    var k: nat :| LastSet(ops, key, k) && HoldsSet(s, ops[k]);
    assert Resets(ops[k], key) && Resets(ops[i], key);
  }

  /** An operation that neither resets a record nor has it go. */
  predicate Spares(op: Op, key: Bytes, expire: Double) {
    !Resets(op, key) && !op.EvictOp? && (op.ExpireOp? ==> !Due(expire, op.at))
  }

  lemma RunSpares(ops: seq<Op>, op: Op, key: Bytes)
    requires key in Run(ops).meta.data && Spares(op, key, Run(ops).meta.data[key].expire)
    ensures key in Run(ops + [op]).meta.data
  {
    RunNext(ops, op);
    ApplyKeeps(Run(ops), op, key);
  }

  lemma RunSets(ops: seq<Op>, op: Op)
    requires op.SetOp?
    ensures op.key in Run(ops + [op]).meta.data
  {
    RunNext(ops, op);
    SetHolds(Run(ops), op);
  }

  /** And a record that was set and not reset is still there, unless it was evicted, or an expiry came
      at or after its deadline. */
  lemma {:induction false} RecordsStay(ops: seq<Op>, key: Bytes, i: nat)
    requires LastSet(ops, key, i)
    requires forall j :: i < j < |ops| ==> Spares(ops[j], key, ops[i].expire)
    ensures key in Run(ops).meta.data
    decreases |ops|
  {
    var front, last := ops[..|ops| - 1], ops[|ops| - 1];
    assert ops == front + [last];
    if i == |front| {
      RunSets(front, last);
    } else {
      RecordsStay(front, key, i);
      RecordsAreLastSet(front, key);
      SameLastSet(front, Run(front), key, i);
      RunSpares(front, last, key);
    }
  }

  const NEVER := Pattern(false, 2047, 0)

  /** A record that had already expired before 1970, and one that never does. */
  function Overdue(past: Double, now: Double): seq<Op> {
    [SetOp([97], [], past, now, 4096, []), SetOp([98], [], NEVER, now, 4096, [])]
  }

  lemma OverdueMeta(past: Double, now: Double)
    ensures Run(Overdue(past, now)).meta.data
         == map[[97] := Meta(now, past, now, 0, None), [98] := Meta(now, NEVER, now, 0, None)]
  {
    var ops := Overdue(past, now);
    assert ops[..|ops| - 1] == ops[..1] == [ops[0]] && ops[..1][..0] == [];
    SetMeta(Run([]), [97], [], Meta(now, past, now, 0, None));
    SetMeta(Run(ops[..1]), [98], [], Meta(now, NEVER, now, 0, None));
  }

  lemma OverdueReached(meta: map<Bytes, Meta>, past: Double, now: Double)
    requires meta == map[[97] := Meta(now, past, now, 0, None), [98] := Meta(now, NEVER, now, 0, None)]
    requires past.neg && !now.neg && now.exp < 2047
    ensures Due(past, now) && Reached(Expiries(meta), now) == 0
  {
    var times := Expiries(meta);
    assert [97] in times && times[[97]] == past && Due(times[[97]], now);
    assert [98] in times && !Due(times[[98]], now);
    assert UnsignedDue(times, now) == {};
  }

  lemma ExpireNothing(s: State, limit: nat, now: Double)
    requires InStep(s) && Reached(Expiries(s.meta.data), now) == 0
    ensures Expire(s, limit, now) == s
  {
    ExpireIsPrefix(s, limit, now);
  }

  /** The first is due, and an expiry at any time since removes neither, whatever its limit. */
  lemma OverdueStays(past: Double, now: Double, limit: nat)
    requires past.neg && !now.neg && now.exp < 2047
    ensures var s := Run(Overdue(past, now));
            && [97] in s.meta.data && Due(s.meta.data[[97]].expire, now)
            && Expire(s, limit, now) == s
  {
    OverdueMeta(past, now);
    OverdueReached(Run(Overdue(past, now)).meta.data, past, now);
    ExpireNothing(Run(Overdue(past, now)), limit, now);
  }

  /** Reading back what was written; every other key reads as before. */
  lemma SetThenGet(s: State, key: Bytes, payload: Bytes, expire: Double, now: Double, threshold: nat,
                   name: Bytes, other: Bytes, later: Double)
    ensures var r := Written(s, key, payload, expire, now, threshold, name);
            Get(r, other, later) ==
            if other != key then Get(s, other, later)
            else if Due(expire, later) then Missing
            else if |payload| > threshold then Blob(name, |payload|) else Stored(Some(payload))
  {}
}
