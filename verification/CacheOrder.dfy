/** What walking the cache's indexes in order and stopping early amounts to. */
module CacheOrder {
  import opened Bytes
  import opened Tables
  import opened Doubles
  import opened Cache
  import opened Scan

  // -------------------------------------------------------------------------
  // An index, decoded
  // -------------------------------------------------------------------------

  datatype Timed = Timed(when: Double, key: Bytes)

  predicate IsEntry(e: Bytes) { |e| >= 8 && IsNumber(Un8(e[..8])) }

  function Decode(e: Bytes): Timed
    requires IsEntry(e)
  {
    Timed(IndexOf(e).when, IndexOf(e).key)
  }

  function DecodeAll(es: seq<Bytes>): (r: seq<Timed>)
    requires forall e :: e in es ==> IsEntry(e)
    ensures |r| == |es| && forall i :: 0 <= i < |es| ==> r[i] == Decode(es[i])
  {
    seq(|es|, i requires 0 <= i < |es| => Decode(es[i]))
  }

  /** One entry per key, each with its key's time. */
  predicate Lists(es: seq<Timed>, times: map<Bytes, Double>) {
    && (forall i :: 0 <= i < |es| ==> es[i].key in times && es[i].when == times[es[i].key])
    && (forall i, j :: 0 <= i < j < |es| ==> es[i].key != es[j].key)
    && (forall k :: k in times ==> Timed(times[k], k) in es)
  }

  lemma DecodeIndexKey(when: Double, key: Bytes)
    ensures IsEntry(IndexKey(when, key)) && Decode(IndexKey(when, key)) == Timed(when, key)
  {
    IndexRoundTrip(when, key);
  }

  lemma IndexIsEntries(t: Table<Bytes>, times: map<Bytes, Double>)
    requires Index(t, times)
    ensures forall e :: e in t.keys ==> IsEntry(e)
    ensures forall e :: e in t.keys ==>
              Decode(e).key in times && e == IndexKey(times[Decode(e).key], Decode(e).key)
  {
    forall e | e in t.keys
      ensures IsEntry(e) && Decode(e).key in times
      ensures e == IndexKey(times[Decode(e).key], Decode(e).key)
    {
      DecodeIndexKey(times[e[8..]], e[8..]);
    }
  }

  lemma IndexLists(t: Table<Bytes>, times: map<Bytes, Double>)
    requires Index(t, times)
    ensures forall e :: e in t.keys ==> IsEntry(e)
    ensures Lists(DecodeAll(t.keys), times)
  {
    IndexIsEntries(t, times);
    SortedDistinct(t.keys);
    var es := DecodeAll(t.keys);
    forall i | 0 <= i < |es| ensures es[i].key in times && es[i].when == times[es[i].key] {
      assert t.keys[i] in t.keys;
      DecodeIndexKey(times[es[i].key], es[i].key);
    }
    forall i, j | 0 <= i < j < |es| ensures es[i].key != es[j].key {
      assert t.keys[i] in t.keys && t.keys[j] in t.keys;
    }
    forall k | k in times ensures Timed(times[k], k) in es {
      var i :| 0 <= i < |t.keys| && t.keys[i] == IndexKey(times[k], k);
      DecodeIndexKey(times[k], k);
      assert es[i] == Timed(times[k], k);
    }
  }

  function KeysOf(es: seq<Timed>): (r: set<Bytes>)
    ensures forall i :: 0 <= i < |es| ==> es[i].key in r
    ensures forall k :: k in r ==> exists i :: 0 <= i < |es| && es[i].key == k
  {
    if es == [] then {} else KeysOf(es[..|es| - 1]) + {es[|es| - 1].key}
  }

  lemma PrefixIndex(es: seq<Timed>, n: nat, k: Bytes)
    requires n <= |es|
    ensures k in KeysOf(es[..n]) <==> exists i :: 0 <= i < n && es[i].key == k
  {}

  /** The same keys, counted up. */
  function KeysTo(es: seq<Timed>, n: nat): (r: set<Bytes>)
    requires n <= |es|
    ensures forall k :: k in r <==> exists i :: 0 <= i < n && es[i].key == k
  {
    if n == 0 then {} else KeysTo(es, n - 1) + {es[n - 1].key}
  }

  lemma KeysToIs(es: seq<Timed>, n: nat)
    requires n <= |es|
    ensures KeysTo(es, n) == KeysOf(es[..n])
  {
    forall k ensures k in KeysTo(es, n) <==> k in KeysOf(es[..n]) {
      PrefixIndex(es, n, k);
    }
  }

  lemma {:induction false} CountKeys(es: seq<Timed>, n: nat)
    requires n <= |es| && forall i, j :: 0 <= i < j < |es| ==> es[i].key != es[j].key
    ensures |KeysTo(es, n)| == n
  {
    if n > 0 { CountKeys(es, n - 1); }
  }

  /** Entries of a listing are for as many keys. */
  lemma PrefixKeys(es: seq<Timed>, times: map<Bytes, Double>, n: nat)
    requires Lists(es, times) && n <= |es|
    ensures |KeysOf(es[..n])| == n
  {
    CountKeys(es, n);
    KeysToIs(es, n);
  }

  lemma AsManyKeys(es: seq<Timed>, times: map<Bytes, Double>)
    requires KeysOf(es) == times.Keys && |KeysOf(es)| == |es|
    ensures |es| == |times|
  {}

  lemma AllKeys(es: seq<Timed>, times: map<Bytes, Double>)
    requires Lists(es, times)
    ensures KeysOf(es) == times.Keys && |es| == |times|
  {
    PrefixKeys(es, times, |es|);
    assert es[..|es|] == es;
    forall k | k in times ensures k in KeysOf(es) {
      var i :| 0 <= i < |es| && es[i] == Timed(times[k], k);
    }
    assert KeysOf(es) == times.Keys;
    AsManyKeys(es, times);
  }

  // -------------------------------------------------------------------------
  // Forgetting a run of entries
  // -------------------------------------------------------------------------

  function ForgetAll(s: State, es: seq<Timed>): State {
    if es == [] then s else Forget(ForgetAll(s, es[..|es| - 1]), es[|es| - 1].key)
  }

  lemma MinusMore<K, V>(m: map<K, V>, a: set<K>, x: K)
    ensures m - a - {x} == m - (a + {x})
  {}

  lemma ForgetData(s: State, key: Bytes)
    ensures Forget(s, key).meta.data == s.meta.data - {key}
  {}

  lemma {:induction false} ForgetAllData(s: State, es: seq<Timed>)
    ensures ForgetAll(s, es).meta.data == s.meta.data - KeysOf(es)
  {
    if es == [] {
      assert s.meta.data - {} == s.meta.data;
    } else {
      var n := |es| - 1;
      ForgetAllData(s, es[..n]);
      ForgetData(ForgetAll(s, es[..n]), es[n].key);
      MinusMore(s.meta.data, KeysOf(es[..n]), es[n].key);
    }
  }

  lemma {:induction false} ForgetAllInStep(s: State, es: seq<Timed>)
    requires InStep(s)
    ensures InStep(ForgetAll(s, es))
  {
    if es != [] {
      var n := |es| - 1;
      ForgetAllInStep(s, es[..n]);
      ForgetInStep(ForgetAll(s, es[..n]), es[n].key);
    }
  }

  lemma ForgetAllMeta(s: State, es: seq<Timed>)
    requires InStep(s)
    ensures InStep(ForgetAll(s, es))
    ensures ForgetAll(s, es).meta.data == s.meta.data - KeysOf(es)
  {
    ForgetAllInStep(s, es);
    ForgetAllData(s, es);
  }

  // -------------------------------------------------------------------------
  // Due
  // -------------------------------------------------------------------------

  /** `when > now` is what cache_expire stops at; the rest is due. cache_get reads a record as
      missing by the same test. */
  predicate Due(when: Double, now: Double) { !Below(Value(now), Value(when)) }

  /** A deadline is due from the moment it names; one that never comes never is. */
  lemma DueMeans(when: Double, now: Double)
    ensures Due(when, when)
    ensures when.exp < 2047 && now.exp < 2047 ==> (Due(when, now) <==> Value(when).v <= Value(now).v)
    ensures when.exp == 2047 && now.exp < 2047 ==> (Due(when, now) <==> when.neg)
  {}

  /** How many entries the loop of cache_expire gets through. */
  function DueRun(es: seq<Timed>, now: Double): (n: nat)
    ensures n <= |es|
    ensures forall i :: 0 <= i < n ==> Due(es[i].when, now)
    ensures n < |es| ==> !Due(es[n].when, now)
  {
    if es == [] || !Due(es[0].when, now) then 0 else 1 + DueRun(es[1..], now)
  }

  function DueKeys(times: map<Bytes, Double>, now: Double): set<Bytes> {
    set k | k in times && Due(times[k], now)
  }

  /** What the loop gets through was due. */
  lemma RunIsDue(es: seq<Timed>, times: map<Bytes, Double>, limit: nat, now: Double)
    requires Lists(es, times)
    ensures KeysOf(Take(es, limit)[..DueRun(Take(es, limit), now)]) <= DueKeys(times, now)
  {}

  lemma {:induction false} DueRunOfTake(es: seq<Timed>, n: nat, now: Double)
    ensures DueRun(Take(es, n), now) == if DueRun(es, now) <= n then DueRun(es, now) else n
  {}

  /** No due entry comes after one that is not. */
  predicate DueFirst(es: seq<Timed>, now: Double) {
    forall i, j :: 0 <= i < j < |es| && Due(es[j].when, now) ==> Due(es[i].when, now)
  }

  lemma RunKeys(es: seq<Timed>, times: map<Bytes, Double>, now: Double)
    requires Lists(es, times)
    ensures KeysOf(es[..DueRun(es, now)]) <= DueKeys(times, now)
  {}

  lemma RunReaches(es: seq<Timed>, times: map<Bytes, Double>, now: Double, k: Bytes)
    requires Lists(es, times) && DueFirst(es, now) && k in times && Due(times[k], now)
    ensures k in KeysOf(es[..DueRun(es, now)])
  {
    var n := DueRun(es, now);
    var j :| 0 <= j < |es| && es[j] == Timed(times[k], k);
    assert j < n;
    assert es[..n][j].key == k;
  }

  /** Then the run gets through every due entry. */
  lemma DueFirstRunsThrough(es: seq<Timed>, times: map<Bytes, Double>, now: Double)
    requires Lists(es, times) && DueFirst(es, now)
    ensures DueRun(es, now) == |DueKeys(times, now)|
  {
    var n := DueRun(es, now);
    PrefixKeys(es, times, n);
    RunKeys(es, times, now);
    forall k | k in DueKeys(times, now) ensures k in KeysOf(es[..n]) {
      RunReaches(es, times, now, k);
    }
    assert KeysOf(es[..n]) == DueKeys(times, now);
  }

  // -------------------------------------------------------------------------
  // Listing order and time
  // -------------------------------------------------------------------------

  /** Entries are listed by the bytes of their times. */
  predicate ByBytes(es: seq<Timed>) {
    forall i, j :: 0 <= i < j < |es| ==>
      Less(Be8(es[i].when), Be8(es[j].when)) || es[i].when == es[j].when
  }

  lemma IndexByBytes(t: Table<Bytes>, times: map<Bytes, Double>)
    requires Index(t, times)
    ensures forall e :: e in t.keys ==> IsEntry(e)
    ensures ByBytes(DecodeAll(t.keys))
  {
    IndexIsEntries(t, times);
    var es := DecodeAll(t.keys);
    forall i, j | 0 <= i < j < |es|
      ensures Less(Be8(es[i].when), Be8(es[j].when)) || es[i].when == es[j].when
    {
      assert t.keys[i] in t.keys && t.keys[j] in t.keys;
      EntryOrder(t.keys[i], t.keys[j]);
    }
  }

  lemma EntryOrder(d: Bytes, e: Bytes)
    requires IsEntry(d) && IsEntry(e) && Less(d, e)
    ensures Less(Be8(Decode(d).when), Be8(Decode(e).when)) || Decode(d).when == Decode(e).when
  {
    EncodesBytes(d[..8]);
    EncodesBytes(e[..8]);
    assert d == d[..8] + d[8..] && e == e[..8] + e[8..];
    LessByHead(d[..8], e[..8], d[8..], e[8..]);
  }

  lemma BelowTransitive(a: Extended, b: Extended, c: Extended)
    ensures Below(a, b) && !Below(c, b) ==> Below(a, c)
    ensures Below(a, b) ==> !Below(b, a)
  {}

  /** What being listed no later says about two times: a sign bit puts the later one first. */
  lemma ListedTimes(c: Double, d: Double)
    requires Less(Be8(c), Be8(d)) || c == d
    ensures c.neg ==> d.neg
    ensures Below(Value(d), Value(c)) <==> d.neg && Value(d) != Value(c)
    ensures !d.neg ==> !Below(Value(d), Value(c))
    ensures c.neg ==> !Below(Value(c), Value(d))
  {
    if c != d {
      BytesAreBits(c, d);
      SignedBits(c, d);
    }
  }

  /** No entry that is due comes after one of the same sign bit that is not... */
  lemma DueBefore(es: seq<Timed>, i: nat, j: nat, now: Double)
    requires ByBytes(es) && i < j < |es| && !es[j].when.neg && Due(es[j].when, now)
    ensures Due(es[i].when, now)
  {
    ListedTimes(es[i].when, es[j].when);
    BelowTransitive(Value(now), Value(es[i].when), Value(es[j].when));
  }

  /** ...without sign bits; with them it is the other way round. */
  lemma DueAfter(es: seq<Timed>, i: nat, j: nat, now: Double)
    requires ByBytes(es) && i < j < |es| && es[i].when.neg && Due(es[i].when, now)
    ensures Due(es[j].when, now)
  {
    ListedTimes(es[i].when, es[j].when);
    BelowTransitive(Value(now), Value(es[j].when), Value(es[i].when));
  }

  function UnsignedDue(times: map<Bytes, Double>, now: Double): set<Bytes> {
    set k | k in times && !times[k].neg && Due(times[k], now)
  }

  /** Something with a sign bit is due and something is not. */
  predicate Mixed(times: map<Bytes, Double>, now: Double) {
    && (exists k :: k in times && times[k].neg && Due(times[k], now))
    && (exists k :: k in times && !Due(times[k], now))
  }

  lemma UnmixedDueFirst(es: seq<Timed>, times: map<Bytes, Double>, now: Double)
    requires Lists(es, times) && ByBytes(es) && !Mixed(times, now)
    ensures DueFirst(es, now)
  {
    forall i, j | 0 <= i < j < |es| && Due(es[j].when, now) ensures Due(es[i].when, now) {
      assert es[i].key in times && es[j].key in times;
      if !es[j].when.neg { DueBefore(es, i, j, now); }
    }
  }

  /** Where there is something to stop at, the run holds just the due entries without a sign bit. */
  lemma RunUnsigned(es: seq<Timed>, times: map<Bytes, Double>, now: Double, i: nat)
    requires Lists(es, times) && ByBytes(es) && i < DueRun(es, now) < |es|
    ensures !es[i].when.neg
  {
    if es[i].when.neg { DueAfter(es, i, DueRun(es, now), now); }
  }

  lemma UnsignedInRun(es: seq<Timed>, times: map<Bytes, Double>, now: Double, k: Bytes)
    requires Lists(es, times) && ByBytes(es) && k in UnsignedDue(times, now)
    ensures k in KeysOf(es[..DueRun(es, now)])
  {
    var n := DueRun(es, now);
    var j :| 0 <= j < |es| && es[j] == Timed(times[k], k);
    if n < j { DueBefore(es, n, j, now); }
    assert es[..n][j].key == k;
  }

  lemma RunInUnsigned(es: seq<Timed>, times: map<Bytes, Double>, now: Double, k: Bytes)
    requires Lists(es, times) && ByBytes(es) && DueRun(es, now) < |es|
    requires k in KeysOf(es[..DueRun(es, now)])
    ensures k in UnsignedDue(times, now)
  {
    PrefixIndex(es, DueRun(es, now), k);
    var i :| 0 <= i < DueRun(es, now) && es[i].key == k;
    RunUnsigned(es, times, now, i);
  }

  lemma RunStops(es: seq<Timed>, times: map<Bytes, Double>, now: Double)
    requires Lists(es, times) && exists k :: k in times && !Due(times[k], now)
    ensures DueRun(es, now) < |es|
  {
    var j :| j in times && !Due(times[j], now);
    var a :| 0 <= a < |es| && es[a] == Timed(times[j], j);
  }

  lemma MixedRun(es: seq<Timed>, times: map<Bytes, Double>, now: Double)
    requires Lists(es, times) && ByBytes(es) && Mixed(times, now)
    ensures DueRun(es, now) == |UnsignedDue(times, now)|
  {
    RunStops(es, times, now);
    PrefixKeys(es, times, DueRun(es, now));
    var gone := KeysOf(es[..DueRun(es, now)]);
    forall k ensures k in gone <==> k in UnsignedDue(times, now) {
      if k in gone { RunInUnsigned(es, times, now, k); }
      if k in UnsignedDue(times, now) { UnsignedInRun(es, times, now, k); }
    }
    assert gone == UnsignedDue(times, now);
  }

  /** How many entries the loop would get through without a limit. */
  function Reached(times: map<Bytes, Double>, now: Double): nat {
    if Mixed(times, now) then |UnsignedDue(times, now)| else |DueKeys(times, now)|
  }

  lemma RunLength(es: seq<Timed>, times: map<Bytes, Double>, now: Double)
    requires Lists(es, times) && ByBytes(es)
    ensures DueRun(es, now) == Reached(times, now)
  {
    if Mixed(times, now) {
      MixedRun(es, times, now);
    } else {
      UnmixedDueFirst(es, times, now);
      DueFirstRunsThrough(es, times, now);
    }
  }

  lemma MixedReachesLess(times: map<Bytes, Double>, now: Double)
    ensures Reached(times, now) < |DueKeys(times, now)| <==> Mixed(times, now)
    ensures Reached(times, now) <= |DueKeys(times, now)|
  {
    if Mixed(times, now) {
      var k :| k in times && times[k].neg && Due(times[k], now);
      SmallerSet(UnsignedDue(times, now), DueKeys(times, now), k);
    }
  }

  lemma SmallerSet(a: set<Bytes>, b: set<Bytes>, x: Bytes)
    requires a <= b && x in b && x !in a
    ensures |a| < |b|
  {
    assert b == a + (b - a);
    assert x in b - a;
  }

  // -------------------------------------------------------------------------
  // Expiry and eviction of a cache
  // -------------------------------------------------------------------------

  function Deadlines(s: State): seq<Timed>
    requires InStep(s)
  {
    IndexIsEntries(s.expiry, Expiries(s.meta.data));
    DecodeAll(s.expiry.keys)
  }

  function AccessTimes(s: State): seq<Timed>
    requires InStep(s)
  {
    IndexIsEntries(s.accessed, Accesses(s.meta.data));
    DecodeAll(s.accessed.keys)
  }

  /** cache_expire. */
  function Expire(s: State, limit: nat, now: Double): State
    requires InStep(s)
  {
    var due := Take(Deadlines(s), limit);
    ForgetAll(s, due[..DueRun(due, now)])
  }

  /** cache_evict. */
  function Evict(s: State, n: nat): State
    requires InStep(s)
  {
    ForgetAll(s, Take(AccessTimes(s), n))
  }

  lemma ExpireInStep(s: State, limit: nat, now: Double)
    requires InStep(s)
    ensures InStep(Expire(s, limit, now))
    ensures forall k :: k in Expire(s, limit, now).meta.data ==>
              k in s.meta.data && Expire(s, limit, now).meta.data[k] == s.meta.data[k]
  {
    var due := Take(Deadlines(s), limit);
    ForgetAllMeta(s, due[..DueRun(due, now)]);
  }

  /** Whatever the deadlines, nothing is removed that was not due. */
  lemma ExpiryIsSound(s: State, limit: nat, now: Double)
    requires InStep(s)
    ensures forall k :: k in s.meta.data && k !in Expire(s, limit, now).meta.data ==>
              Due(s.meta.data[k].expire, now)
  {
    var due := Take(Deadlines(s), limit);
    var gone := due[..DueRun(due, now)];
    ForgetAllMeta(s, gone);
    IndexLists(s.expiry, Expiries(s.meta.data));
    RunIsDue(Deadlines(s), Expiries(s.meta.data), limit, now);
    forall k | k in s.meta.data && k !in Expire(s, limit, now).meta.data
      ensures Due(s.meta.data[k].expire, now)
    {
      assert k in KeysOf(gone);
      assert k in DueKeys(Expiries(s.meta.data), now);
    }
  }

  lemma AccessesList(s: State)
    requires InStep(s)
    ensures Lists(AccessTimes(s), Accesses(s.meta.data)) && ByBytes(AccessTimes(s))
  {
    IndexLists(s.accessed, Accesses(s.meta.data));
    IndexByBytes(s.accessed, Accesses(s.meta.data));
  }

  lemma TimesKeys(meta: map<Bytes, Meta>)
    ensures Expiries(meta).Keys == meta.Keys && Accesses(meta).Keys == meta.Keys
  {}

  lemma CutRun(es: seq<Timed>, limit: nat, now: Double)
    ensures Take(es, limit)[..DueRun(Take(es, limit), now)]
         == Take(es, if DueRun(es, now) <= limit then DueRun(es, now) else limit)
  {
    DueRunOfTake(es, limit, now);
  }

  lemma DeadlinesList(s: State)
    requires InStep(s)
    ensures Lists(Deadlines(s), Expiries(s.meta.data)) && ByBytes(Deadlines(s))
  {
    IndexLists(s.expiry, Expiries(s.meta.data));
    IndexByBytes(s.expiry, Expiries(s.meta.data));
  }

  function Min(a: nat, b: nat): nat { if a <= b then a else b }

  lemma ExpireIsPrefix(s: State, limit: nat, now: Double)
    requires InStep(s)
    ensures Expire(s, limit, now)
         == ForgetAll(s, Take(Deadlines(s), Min(limit, Reached(Expiries(s.meta.data), now))))
  {
    DeadlinesList(s);
    RunLength(Deadlines(s), Expiries(s.meta.data), now);
    CutRun(Deadlines(s), limit, now);
  }

  /** How many records an expiry removes, and that they are the first listed. */
  lemma ExpiryRemoves(s: State, limit: nat, now: Double)
    requires InStep(s)
    ensures var n := Min(limit, Reached(Expiries(s.meta.data), now));
            && Expire(s, limit, now) == ForgetAll(s, Take(Deadlines(s), n))
            && |s.meta.data| - |Expire(s, limit, now).meta.data| == n
    ensures FirstOut(Expiries(s.meta.data), Expire(s, limit, now).meta.data.Keys)
  {
    var es, times := Deadlines(s), Expiries(s.meta.data);
    var n := Min(limit, Reached(times, now));
    ExpireIsPrefix(s, limit, now);
    DeadlinesList(s);
    TimesKeys(s.meta.data);
    RunLength(es, times, now);
    ForgottenCount(s, es, times, n);
    RemovedFirst(s, es, times, n);
  }

  lemma ForgottenCount(s: State, es: seq<Timed>, times: map<Bytes, Double>, n: nat)
    requires Lists(es, times) && times.Keys == s.meta.data.Keys
    ensures |ForgetAll(s, Take(es, n)).meta.data| == |s.meta.data| - Min(n, |s.meta.data|)
    ensures |es| == |s.meta.data|
  {
    ForgetAllData(s, Take(es, n));
    TakenKeys(es, times, n);
    SameKeys(s.meta.data, times);
    Remaining(s.meta.data, KeysOf(Take(es, n)));
  }

  lemma TakenKeys(es: seq<Timed>, times: map<Bytes, Double>, n: nat)
    requires Lists(es, times)
    ensures KeysOf(Take(es, n)) <= times.Keys && |KeysOf(Take(es, n))| == Min(n, |times|)
    ensures |es| == |times|
  {
    AllKeys(es, times);
    if n <= |es| {
      PrefixKeys(es, times, n);
      PrefixWithin(es, n);
    } else {
      PrefixKeys(es, times, |es|);
      assert es[..|es|] == es;
    }
  }

  lemma SameKeys<K, V, W>(m: map<K, V>, n: map<K, W>)
    requires m.Keys == n.Keys
    ensures |m| == |n|
  {
    assert |m| == |m.Keys| && |n| == |n.Keys|;
  }

  /** Whatever the deadlines and the limit, an expiry removes fewer records than it should exactly
      if some deadline with a sign bit has passed, some deadline has not, and the passed ones
      without a sign bit do not use up the limit. */
  lemma ExpiryMissesIff(s: State, limit: nat, now: Double)
    requires InStep(s)
    ensures var times := Expiries(s.meta.data);
            |s.meta.data| - |Expire(s, limit, now).meta.data| != Min(limit, |DueKeys(times, now)|) <==>
            Mixed(times, now) && |UnsignedDue(times, now)| < limit
  {
    ExpiryRemoves(s, limit, now);
    MixedReachesLess(Expiries(s.meta.data), now);
  }

  /** Something due stays exactly if fewer were removed than are due. */
  lemma ExpiryLeavesDue(s: State, limit: nat, now: Double)
    requires InStep(s)
    ensures (exists k :: k in s.meta.data && Due(s.meta.data[k].expire, now)
                         && k in Expire(s, limit, now).meta.data) <==>
            |s.meta.data| - |Expire(s, limit, now).meta.data| < |DueKeys(Expiries(s.meta.data), now)|
  {
    ExpireInStep(s, limit, now);
    ExpiryIsSound(s, limit, now);
    LeftAfter(s.meta.data, Expire(s, limit, now).meta.data, now);
  }

  lemma LeftAfter(meta: map<Bytes, Meta>, kept: map<Bytes, Meta>, now: Double)
    requires kept.Keys <= meta.Keys
    requires forall k :: k in meta && k !in kept ==> Due(meta[k].expire, now)
    ensures (exists k :: k in meta && Due(meta[k].expire, now) && k in kept)
            <==> |meta| - |kept| < |DueKeys(Expiries(meta), now)|
  {
    var due := DueKeys(Expiries(meta), now);
    LeftOf(meta.Keys, kept.Keys, due);
    assert |meta| == |meta.Keys| && |kept| == |kept.Keys|;
    if k :| k in due && k in kept.Keys { assert k in meta && Due(meta[k].expire, now) && k in kept; }
    if k :| k in meta && Due(meta[k].expire, now) && k in kept { assert k in due && k in kept.Keys; }
  }

  lemma LeftOf(all: set<Bytes>, kept: set<Bytes>, due: set<Bytes>)
    requires kept <= all && all - kept <= due <= all
    ensures (exists k :: k in due && k in kept) <==> |all| - |kept| < |due|
  {
    var gone := all - kept;
    assert |gone| == |all| - |kept|;
    if k :| k in due && k in kept {
      SmallerSet(gone, due, k);
    } else {
      assert gone == due;
    }
  }

  /** A record that stays has an earlier time than one that goes exactly if it has a sign bit and
      is another time. */
  ghost predicate FirstOut(times: map<Bytes, Double>, kept: set<Bytes>) {
    forall k, j :: k in times && k !in kept && j in times && j in kept ==>
      (Below(Value(times[j]), Value(times[k])) <==> times[j].neg && Value(times[j]) != Value(times[k]))
  }

  ghost predicate EarliestOut(times: map<Bytes, Double>, kept: set<Bytes>) {
    forall k, j :: k in times && k !in kept && j in times && j in kept ==>
      !Below(Value(times[j]), Value(times[k]))
  }

  /** With deadlines that have no sign bit, cache_expire removes the smallest entries, as many as
      are due or as many as it was allowed, and keeps none that passed before one it removed. */
  lemma ExpiryIsComplete(s: State, limit: nat, now: Double)
    requires InStep(s) && forall k :: k in s.meta.data ==> !s.meta.data[k].expire.neg
    ensures var n := Min(limit, |DueKeys(Expiries(s.meta.data), now)|);
            && Expire(s, limit, now) == ForgetAll(s, Take(Deadlines(s), n))
            && |s.meta.data| - |Expire(s, limit, now).meta.data| == n
    ensures EarliestOut(Expiries(s.meta.data), Expire(s, limit, now).meta.data.Keys)
  {
    ExpiryRemoves(s, limit, now);
    UnsignedUnmixed(Expiries(s.meta.data), now);
    UnsignedEarliest(Expiries(s.meta.data), Expire(s, limit, now).meta.data.Keys);
  }

  lemma UnsignedUnmixed(times: map<Bytes, Double>, now: Double)
    requires forall k :: k in times ==> !times[k].neg
    ensures Reached(times, now) == |DueKeys(times, now)|
  {}

  lemma UnsignedEarliest(times: map<Bytes, Double>, kept: set<Bytes>)
    requires FirstOut(times, kept) && forall k :: k in times ==> !times[k].neg
    ensures EarliestOut(times, kept)
  {}

  // -------------------------------------------------------------------------
  // Reading
  // -------------------------------------------------------------------------

  datatype Answer = Missing | Stored(payload: Option<Bytes>) | Blob(name: Bytes, size: nat)

  /** cache_get, up to what is to be read from where. */
  function Get(s: State, key: Bytes, now: Double): Answer {
    if key !in s.meta.data || Due(s.meta.data[key].expire, now) then Missing
    else match s.meta.data[key].blob
      case Some(name) => Blob(name, s.meta.data[key].size)
      case None => Stored(if key in s.values.data then Some(s.values.data[key]) else None)
  }

  /** A record that is there and not due can be read. */
  lemma StoredIsThere(s: State, key: Bytes, now: Double)
    requires InStep(s)
    ensures Get(s, key, now).Stored? ==> Get(s, key, now).payload.Some?
    ensures Get(s, key, now) == Missing <==>
            key !in s.meta.data || Due(s.meta.data[key].expire, now)
  {}

  lemma {:induction false} ForgetAllValues(s: State, es: seq<Timed>, key: Bytes)
    requires key !in KeysOf(es)
    ensures var r := ForgetAll(s, es);
            && (key in r.values.data <==> key in s.values.data)
            && (key in s.values.data ==> r.values.data[key] == s.values.data[key])
  {
    if es != [] {
      var n := |es| - 1;
      ForgetAllValues(s, es[..n], key);
    }
  }

  /** Expiry changes no answer, then or at any later time. */
  lemma ExpiryIsInvisible(s: State, limit: nat, now: Double, key: Bytes, later: Double)
    requires InStep(s) && !Below(Value(later), Value(now))
    ensures Get(Expire(s, limit, now), key, later) == Get(s, key, later)
  {
    var due := Take(Deadlines(s), limit);
    var gone := due[..DueRun(due, now)];
    ForgetAllMeta(s, gone);
    if key in KeysOf(gone) {
      if key in s.meta.data {
        ExpiryIsSound(s, limit, now);
        BelowTransitive(Value(later), Value(s.meta.data[key].expire), Value(now));
      }
    } else {
      ForgetAllValues(s, gone, key);
    }
  }

  // -------------------------------------------------------------------------
  // Eviction
  // -------------------------------------------------------------------------

  /** Eviction removes as many records as asked, or all of them, and keeps the rest as they were. */
  lemma EvictionCounts(s: State, n: nat)
    requires InStep(s)
    ensures InStep(Evict(s, n))
    ensures |Evict(s, n).meta.data| == |s.meta.data| - Min(n, |s.meta.data|)
    ensures forall k :: k in Evict(s, n).meta.data ==>
              k in s.meta.data && Evict(s, n).meta.data[k] == s.meta.data[k]
  {
    var es, times := AccessTimes(s), Accesses(s.meta.data);
    AccessesList(s);
    TimesKeys(s.meta.data);
    ForgetAllMeta(s, Take(es, n));
    ForgottenCount(s, es, times, n);
  }

  /** And it takes the least recently read, but for access times with a sign bit. */
  lemma EvictionTakesOldest(s: State, n: nat)
    requires InStep(s)
    ensures FirstOut(Accesses(s.meta.data), Evict(s, n).meta.data.Keys)
  {
    AccessesList(s);
    TimesKeys(s.meta.data);
    RemovedFirst(s, AccessTimes(s), Accesses(s.meta.data), n);
  }

  lemma RemovedFirst(s: State, es: seq<Timed>, times: map<Bytes, Double>, n: nat)
    requires Lists(es, times) && ByBytes(es) && times.Keys == s.meta.data.Keys
    ensures FirstOut(times, ForgetAll(s, Take(es, n)).meta.data.Keys)
  {
    ForgetAllData(s, Take(es, n));
    TakenFirst(es, times, n, ForgetAll(s, Take(es, n)).meta.data.Keys);
  }

  lemma TakenFirst(es: seq<Timed>, times: map<Bytes, Double>, n: nat, kept: set<Bytes>)
    requires Lists(es, times) && ByBytes(es)
    requires forall k :: k in times ==> (k in kept <==> k !in KeysOf(Take(es, n)))
    ensures FirstOut(times, kept)
  {
    forall k, j | k in times && k !in kept && j in times && j in kept
      ensures Below(Value(times[j]), Value(times[k])) <==>
              times[j].neg && Value(times[j]) != Value(times[k])
    {
      RemovedBefore(es, times, n, k, j);
    }
  }

  lemma TakeIndex(es: seq<Timed>, n: nat, b: nat)
    ensures b < |Take(es, n)| ==> es[b].key in KeysOf(Take(es, n))
  {}

  lemma RemovedBefore(es: seq<Timed>, times: map<Bytes, Double>, n: nat, k: Bytes, j: Bytes)
    requires Lists(es, times) && ByBytes(es)
    requires k in KeysOf(Take(es, n)) && j in times && j !in KeysOf(Take(es, n)) && k in times
    ensures Below(Value(times[j]), Value(times[k])) <==>
            times[j].neg && Value(times[j]) != Value(times[k])
  {
    var a :| 0 <= a < |Take(es, n)| && Take(es, n)[a].key == k;
    var b :| 0 <= b < |es| && es[b] == Timed(times[j], j);
    TakeIndex(es, n, b);
    ListedTimes(es[a].when, es[b].when);
  }

  lemma PrefixWithin(es: seq<Timed>, n: nat)
    requires n <= |es|
    ensures KeysOf(es[..n]) <= KeysOf(es)
  {}

  lemma Remaining<K, V>(m: map<K, V>, gone: set<K>)
    requires gone <= m.Keys
    ensures |m - gone| == |m| - |gone|
  {}
}
