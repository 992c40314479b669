/** mdbx_keys() over the native scan, and walking a database in chunks with it. */
module Listing {
  import opened Bytes
  import opened Tables
  import opened Native
  import opened Scan
  import opened Counters

  /** R's `limit`: NULL, Inf, a number, or NA, NaN or -Inf. */
  datatype Limit = NoLimit | Unbounded | Number(x: real) | Unusable

  /** check_limit: the native sentinel -1 for "no limit", or why the limit is refused. Zero is a
      limit like any other. */
  function CheckLimit(limit: Limit): (r: Option<int>)
    ensures r.None? <==>
            limit.Unusable?
            || (limit.Number?
                && (limit.x < 0.0 || limit.x != limit.x.Floor as real || limit.x > EXACT as real))
    ensures r.Some? ==> (r.value == -1 <==> limit.NoLimit? || limit.Unbounded?) && -1 <= r.value <= EXACT
    ensures r.Some? && limit.Number? ==> r.value as real == limit.x
  {
    match limit
    case NoLimit => Some(-1)
    case Unbounded => Some(-1)
    case Unusable => None
    case Number(x) =>
      if x < 0.0 || x != x.Floor as real || x > EXACT as real then None
      else Some(x.Floor)
  }

  datatype Listing = Refused | Failed(rc: int) | Listed(keys: seq<Bytes>)

  /** What is asked for: everything beyond `start`, up to a finite limit. */
  function Wanted(keys: seq<Bytes>, limit: Limit, start: Option<Bytes>, reverse: bool): seq<Bytes> {
    var kept := Kept(if reverse then Reverse(keys) else keys, start, reverse);
    if limit.Number? && limit.x >= 0.0 then Take(kept, limit.x.Floor) else kept
  }

  lemma {:induction false} KeptShorter(keys: seq<Bytes>, start: Option<Bytes>, reverse: bool)
    ensures |Kept(keys, start, reverse)| <= |keys|
  {
    if keys != [] { KeptShorter(keys[1..], start, reverse); }
  }

  /** mdbx_keys(). A database has fewer records than a size_t can count. `counted` is the status of
      counting them, which only a scan without a limit does. */
  method MdbxKeys(t: Table<Bytes>, limit: Limit, start: Option<Bytes>, reverse: bool,
                  counted: int, faults: nat -> int)
    returns (r: Listing)
    requires Wf(t) && |t.keys| <= SIZE_MAX && forall n :: faults(n) != NOTFOUND
    ensures r.Refused? <==>
              (limit.NoLimit? && counted == SUCCESS && |t.keys| > SCAN_MAX) || CheckLimit(limit).None?
    ensures limit.NoLimit? && counted != SUCCESS ==> r == Failed(counted)
    ensures r.Listed? ==> r.keys == Wanted(t.keys, limit, start, reverse)
    ensures r.Failed? ==>
              r.rc != SUCCESS && ((limit.NoLimit? && r.rc == counted) || exists n :: faults(n) == r.rc)
  {
    if limit.NoLimit? {
      if counted != SUCCESS {
        return Failed(counted);
      }
      if |t.keys| > SCAN_MAX {
        return Refused;
      }
    }
    var checked := CheckLimit(limit);
    if checked.None? {
      return Refused;
    }
    var native := if checked.value < 0 then SIZE_MAX else checked.value;
    var rc, keys, values := ScanCall(t, native, false, start, reverse, faults);
    KeptShorter(if reverse then Reverse(t.keys) else t.keys, start, reverse);
    r := if rc == SUCCESS then Listed(keys) else Failed(rc);
  }

  // -------------------------------------------------------------------------
  // Walking in chunks
  // -------------------------------------------------------------------------

  /** A forward scan from a key that is there begins with it. */
  lemma ResumesAt(keys: seq<Bytes>, m: nat, limit: nat)
    requires Sorted(keys) && m < |keys|
    ensures ExpectedKeys(keys, limit, Some(keys[m]), false) == Take(keys[m..], limit)
  {
    KeptIsWalk(keys, Some(keys[m]), false);
    InAtLowerBound(keys, keys[m]);
    SortedDistinct(keys);
  }

  lemma StartsAtFirst(keys: seq<Bytes>, limit: nat)
    requires Sorted(keys)
    ensures ExpectedKeys(keys, limit, None, false) == Take(keys, limit)
  {
    KeptIsWalk(keys, None, false);
  }

  function NoFaults(): nat -> int { n => 0 }

  /** What a scan finds once the first `n` keys have been seen. */
  function Chunk(keys: seq<Bytes>, n: nat, chunk: nat): seq<Bytes>
    requires n <= |keys|
  {
    Take(if n == 0 then keys else keys[n - 1..], chunk)
  }

  function From(seen: seq<Bytes>): Option<Bytes> {
    if seen == [] then None else Some(seen[|seen| - 1])
  }

  lemma ScanIsChunk(keys: seq<Bytes>, n: nat, chunk: nat)
    requires Sorted(keys) && n <= |keys|
    ensures ExpectedKeys(keys, chunk, From(keys[..n]), false) == Chunk(keys, n, chunk)
  {
    StartsAtFirst(keys, chunk);
    if n > 0 { ResumesAt(keys, n - 1, chunk); }
  }

  /** What a chunk adds to the first `n` keys, the repeated record dropped. */
  function More(keys: seq<Bytes>, n: nat, chunk: nat): seq<Bytes>
    requires n <= |keys|
  {
    var found := Chunk(keys, n, chunk);
    if n == 0 || found == [] then found else found[1..]
  }

  /** What scanning from the last key seen comes to, until a scan adds nothing. */
  function WalkOn(keys: seq<Bytes>, n: nat, chunk: nat): seq<Bytes>
    requires n <= |keys|
    decreases |keys| - n
  {
    var more := More(keys, n, chunk);
    if more == [] then keys[..n]
    else
      MoreCarriesOn(keys, n, chunk);
      WalkOn(keys, n + |more|, chunk)
  }

  lemma MoreCarriesOn(keys: seq<Bytes>, n: nat, chunk: nat)
    requires n <= |keys|
    ensures var more := More(keys, n, chunk);
            && n + |more| <= |keys| && keys[..n] + more == keys[..n + |more|]
            && (more == [] <==> n == |keys| || (n == 0 && chunk == 0) || (n > 0 && chunk < 2))
            && (n == 0 ==> |more| == if chunk <= |keys| then chunk else |keys|)
  {}

  /** One scan of cache_keys(): `start` is inclusive, so all but the first drop a record. */
  method NextChunk(t: Table<Bytes>, chunk: nat, from: Option<Bytes>, ghost n: nat)
    returns (more: seq<Bytes>)
    requires Wf(t) && n <= |t.keys| && from == From(t.keys[..n])
    ensures more == More(t.keys, n, chunk)
  {
    ScanIsChunk(t.keys, n, chunk);
    var rc, keys, values := ScanCall(t, chunk, false, from, false, NoFaults());
    more := if keys != [] && from.Some? then keys[1..] else keys;
  }

  /** cache_keys(): scan from the last key seen until a scan adds nothing. */
  method KeysInChunks(t: Table<Bytes>, chunk: nat) returns (seen: seq<Bytes>)
    requires Wf(t)
    ensures seen == WalkOn(t.keys, 0, chunk)
    ensures seen == t.keys <==> chunk >= 2 || |t.keys| <= chunk
    ensures chunk < 2 ==> seen == Take(t.keys, chunk)
  {
    ChunksCompleteIff(t.keys, chunk);
    seen := [];
    var from: Option<Bytes> := None;
    while true
      invariant Walked(t.keys, seen, chunk) && from == From(seen)
      decreases |t.keys| - |seen|
    {
      var keys := NextChunk(t, chunk, from, |seen|);
      WalkStep(t.keys, seen, chunk);
      if keys == [] {
        break;
      }
      seen := seen + keys;
      from := Some(keys[|keys| - 1]);
    }
  }

  /** The walk has come this far. */
  predicate Walked(keys: seq<Bytes>, seen: seq<Bytes>, chunk: nat) {
    && |seen| <= |keys| && seen == keys[..|seen|]
    && WalkOn(keys, |seen|, chunk) == WalkOn(keys, 0, chunk)
  }

  lemma WalkStep(keys: seq<Bytes>, seen: seq<Bytes>, chunk: nat)
    requires Walked(keys, seen, chunk)
    ensures var more := More(keys, |seen|, chunk);
            && (more == [] ==> seen == WalkOn(keys, 0, chunk))
            && (more != [] ==> Walked(keys, seen + more, chunk) && From(seen + more) == Some(more[|more| - 1]))
  {
    MoreCarriesOn(keys, |seen|, chunk);
  }

  lemma {:induction false} WalkOnFinishes(keys: seq<Bytes>, n: nat, chunk: nat)
    requires 0 < n <= |keys|
    ensures WalkOn(keys, n, chunk) == if chunk < 2 then keys[..n] else keys
    decreases |keys| - n
  {
    MoreCarriesOn(keys, n, chunk);
    if n < |keys| && chunk >= 2 { WalkOnFinishes(keys, n + |More(keys, n, chunk)|, chunk); }
  }

  /** So the walk lists every key once and in order exactly if a chunk holds a second record or
      everything; otherwise it stops after the first chunk. */
  lemma ChunksCompleteIff(keys: seq<Bytes>, chunk: nat)
    ensures WalkOn(keys, 0, chunk) == keys <==> chunk >= 2 || |keys| <= chunk
    ensures chunk < 2 ==> WalkOn(keys, 0, chunk) == Take(keys, chunk)
  {
    MoreCarriesOn(keys, 0, chunk);
    var m := |More(keys, 0, chunk)|;
    if m > 0 { WalkOnFinishes(keys, m, chunk); }
  }
}
