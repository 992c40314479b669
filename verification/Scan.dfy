/** The cursor scan behind mdbx_keys() and mdbx_items(): proved against the reference model's
    listing of a database, for every start, limit and direction. */
module Scan {
  import opened Bytes
  import opened Tables
  import opened Native

  const NOTFOUND := -30798
  const SIZE_MAX := 0xFFFF_FFFF_FFFF_FFFF
  const SCAN_MAX := 1000000

  // -------------------------------------------------------------------------
  // What a scan should return: expected_keys()
  // -------------------------------------------------------------------------

  function Reverse<T>(s: seq<T>): (r: seq<T>)
    ensures |r| == |s| && forall i :: 0 <= i < |s| ==> r[i] == s[|s| - 1 - i]
  {
    if s == [] then [] else Reverse(s[1..]) + [s[0]]
  }

  /** `start` is inclusive: at or after it forwards, at or before it backwards. */
  predicate Beyond(k: Bytes, start: Option<Bytes>, reverse: bool) {
    start.None? || (if reverse then AtMost(k, start.value) else AtMost(start.value, k))
  }

  function Kept(keys: seq<Bytes>, start: Option<Bytes>, reverse: bool): seq<Bytes> {
    if keys == [] then []
    else (if Beyond(keys[0], start, reverse) then [keys[0]] else [])
         + Kept(keys[1..], start, reverse)
  }

  function Take<T>(s: seq<T>, n: nat): seq<T> { if n <= |s| then s[..n] else s }

  function ExpectedKeys(keys: seq<Bytes>, limit: nat, start: Option<Bytes>, reverse: bool)
    : seq<Bytes>
  {
    Take(Kept(if reverse then Reverse(keys) else keys, start, reverse), limit)
  }

  // -------------------------------------------------------------------------
  // Where the cursor has to go
  // -------------------------------------------------------------------------

  /** Forwards, what is kept is a suffix; backwards, it is a reversed prefix. `Edge` is where the
      one begins and the other ends. */
  function Edge(keys: seq<Bytes>, start: Option<Bytes>, reverse: bool): (i: nat)
    ensures i <= |keys|
  {
    match start
    case None => if reverse then |keys| else 0
    case Some(k) =>
      var i := LowerBound(keys, k);
      if reverse && i < |keys| && keys[i] == k then i + 1 else i
  }

  function Walk(keys: seq<Bytes>, start: Option<Bytes>, reverse: bool): seq<Bytes> {
    var i := Edge(keys, start, reverse);
    if reverse then Reverse(keys[..i]) else keys[i..]
  }

  lemma {:induction false} KeptSplits(a: seq<Bytes>, b: seq<Bytes>, start: Option<Bytes>, rev: bool)
    ensures Kept(a + b, start, rev) == Kept(a, start, rev) + Kept(b, start, rev)
  {
    if a == [] {
      assert a + b == b;
    } else {
      assert (a + b)[1..] == a[1..] + b;
      KeptSplits(a[1..], b, start, rev);
    }
  }

  lemma {:induction false} KeptAll(keys: seq<Bytes>, start: Option<Bytes>, rev: bool)
    requires forall k :: k in keys ==> Beyond(k, start, rev)
    ensures Kept(keys, start, rev) == keys
  {
    if keys != [] { KeptAll(keys[1..], start, rev); }
  }

  lemma {:induction false} KeptNone(keys: seq<Bytes>, start: Option<Bytes>, rev: bool)
    requires forall k :: k in keys ==> !Beyond(k, start, rev)
    ensures Kept(keys, start, rev) == []
  {
    if keys != [] { KeptNone(keys[1..], start, rev); }
  }

  /** Which side of the edge a key is on. */
  lemma EdgeDecides(keys: seq<Bytes>, start: Option<Bytes>, reverse: bool, j: nat)
    requires Sorted(keys) && j < |keys|
    ensures Beyond(keys[j], start, reverse) <==>
            if reverse then j < Edge(keys, start, reverse) else Edge(keys, start, reverse) <= j
  {
    if start.Some? {
      var k := start.value;
      var i := LowerBound(keys, k);
      LowerBoundSplits(keys, k);
      LessTotal(keys[j], k);
      if Less(keys[j], k) { LessAsymmetric(keys[j], k); }
      if Less(k, keys[j]) { LessAsymmetric(k, keys[j]); }
      if i < |keys| && i < j { LessAsymmetric(keys[i], keys[j]); }
      if i < |keys| { LessTotal(keys[i], k); }
    }
  }

  /** The declarative listing is the walk from the edge. */
  lemma KeptIsWalk(keys: seq<Bytes>, start: Option<Bytes>, reverse: bool)
    requires Sorted(keys)
    ensures Kept(if reverse then Reverse(keys) else keys, start, reverse)
         == Walk(keys, start, reverse)
  {
    var i := Edge(keys, start, reverse);
    forall j | 0 <= j < |keys|
      ensures Beyond(keys[j], start, reverse) <==> if reverse then j < i else i <= j
    {
      EdgeDecides(keys, start, reverse, j);
    }
    if reverse {
      var out, within := Reverse(keys[i..]), Reverse(keys[..i]);
      assert Reverse(keys) == out + within;
      forall k | k in out ensures !Beyond(k, start, true) {
        var j :| 0 <= j < |out| && out[j] == k;
        assert k == keys[|keys| - 1 - j];
      }
      forall k | k in within ensures Beyond(k, start, true) {
        var j :| 0 <= j < |within| && within[j] == k;
        assert k == keys[i - 1 - j];
      }
      KeptSplits(out, within, start, true);
      KeptNone(out, start, true);
      KeptAll(within, start, true);
    } else {
      assert keys == keys[..i] + keys[i..];
      KeptSplits(keys[..i], keys[i..], start, false);
      KeptNone(keys[..i], start, false);
      KeptAll(keys[i..], start, false);
    }
  }

  predicate Ahead(a: Bytes, b: Bytes, reverse: bool) { if reverse then Less(b, a) else Less(a, b) }

  /** A listing, told without saying how it is made: in order, of keys on the right side of `start`,
      no more than asked for; and whatever else is on that side comes after all of them, and was left
      out because the limit was reached. */
  lemma ListingIsAsked(keys: seq<Bytes>, limit: nat, start: Option<Bytes>, reverse: bool)
    requires Sorted(keys)
    ensures var r := ExpectedKeys(keys, limit, start, reverse);
            && |r| <= limit
            && (forall i, j :: 0 <= i < j < |r| ==> Ahead(r[i], r[j], reverse))
            && (forall k :: k in r ==> k in keys && Beyond(k, start, reverse))
            && (forall k :: k in keys && k !in r && Beyond(k, start, reverse) ==>
                  |r| == limit && forall x :: x in r ==> Ahead(x, k, reverse))
  {
    var r := ExpectedKeys(keys, limit, start, reverse);
    KeptIsWalk(keys, start, reverse);
    WalkOrdered(keys, start, reverse);
    forall k | k in r ensures k in keys && Beyond(k, start, reverse) {
      var i :| 0 <= i < |r| && r[i] == k;
      EdgeDecides(keys, start, reverse, WalkIndex(keys, start, reverse, i));
    }
    forall k | k in keys && k !in r && Beyond(k, start, reverse)
      ensures |r| == limit && forall x :: x in r ==> Ahead(x, k, reverse)
    {
      var at := WalkReaches(keys, start, reverse, k);
      assert forall i :: 0 <= i < |r| ==> r[i] in r;
    }
  }

  lemma WalkOrdered(keys: seq<Bytes>, start: Option<Bytes>, reverse: bool)
    requires Sorted(keys)
    ensures var walk := Walk(keys, start, reverse);
            forall i, j :: 0 <= i < j < |walk| ==> Ahead(walk[i], walk[j], reverse)
  {}

  lemma WalkReaches(keys: seq<Bytes>, start: Option<Bytes>, reverse: bool, k: Bytes) returns (at: nat)
    requires Sorted(keys) && k in keys && Beyond(k, start, reverse)
    ensures at < |Walk(keys, start, reverse)| && Walk(keys, start, reverse)[at] == k
  {
    var j :| 0 <= j < |keys| && keys[j] == k;
    EdgeDecides(keys, start, reverse, j);
    var e := Edge(keys, start, reverse);
    at := if reverse then e - 1 - j else j - e;
  }

  /** Where in the database step `i` of the walk is. */
  function WalkIndex(keys: seq<Bytes>, start: Option<Bytes>, reverse: bool, i: nat): (j: nat)
    requires i < |Walk(keys, start, reverse)|
    ensures j < |keys| && Walk(keys, start, reverse)[i] == keys[j]
  {
    if reverse then Edge(keys, start, reverse) - 1 - i else Edge(keys, start, reverse) + i
  }

  /** `start` itself is listed first, if it is there. */
  lemma StartComesFirst(keys: seq<Bytes>, limit: nat, k: Bytes, reverse: bool)
    requires Sorted(keys) && k in keys && limit > 0
    ensures var r := ExpectedKeys(keys, limit, Some(k), reverse); r != [] && r[0] == k
  {
    KeptIsWalk(keys, Some(k), reverse);
    InAtLowerBound(keys, k);
  }

  // -------------------------------------------------------------------------
  // The cursor and the scan
  // -------------------------------------------------------------------------

  datatype CursorOp = First | Last | Next | Prev | SetRange

  /** A libmdbx cursor on a snapshot. `faults` makes the nth call fail with a status of its own,
      0 being no fault. */
  class Cursor {
    const keys: seq<Bytes>
    const data: map<Bytes, Bytes>
    const faults: nat -> int
    var at: int
    var calls: nat

    ghost predicate Valid()
      reads this
    {
      && Wf(Table(keys, data)) && 0 <= at <= |keys|
      && (forall n :: faults(n) != NOTFOUND)
    }

    /** An open cursor: opening it was the first call. */
    constructor (t: Table<Bytes>, faults: nat -> int)
      requires Wf(t) && forall n :: faults(n) != NOTFOUND
      ensures Valid() && keys == t.keys && data == t.data && this.faults == faults && calls == 1
    {
      keys, data, this.faults, at, calls := t.keys, t.data, faults, 0, 1;
    }

    /** The index an operation goes to; one off either end is "not found". */
    function Target(op: CursorOp, from: Bytes): int
      reads this
    {
      match op
      case First => 0
      case Last => |keys| - 1
      case Next => at + 1
      case Prev => at - 1
      case SetRange => LowerBound(keys, from)
    }

    /** mdbx_cursor_get. */
    method Get(op: CursorOp, from: Bytes) returns (rc: int, key: Bytes, value: Bytes)
      requires Valid()
      modifies this
      ensures Valid() && calls == old(calls) + 1
      ensures var i := old(Target(op, from));
              if faults(old(calls)) != SUCCESS then rc == faults(old(calls))
              else if 0 <= i < |keys| then
                rc == SUCCESS && at == i && key == keys[i] && value == data[keys[i]]
              else rc == NOTFOUND
    {
      rc, key, value := faults(calls), [], [];
      var i := Target(op, from);
      calls := calls + 1;
      if rc == SUCCESS {
        if 0 <= i < |keys| {
          at, key, value := i, keys[i], data[keys[i]];
        } else {
          rc := NOTFOUND;
        }
      }
    }
  }

  /** Where the cursor stands once `n` records have been returned. */
  function Standing(keys: seq<Bytes>, start: Option<Bytes>, reverse: bool, n: nat): int {
    var i := Edge(keys, start, reverse);
    if reverse then i - n else i + n - 1
  }

  /** scan_call's positioning: SET_RANGE lands on the first key at or after `start`; a backward
      walk that overshot steps back, and one that ran past every key starts from the last. */
  method Position(c: Cursor, start: Option<Bytes>, reverse: bool)
    returns (rc: int, key: Bytes, value: Bytes)
    requires c.Valid()
    modifies c
    ensures c.Valid() && c.calls >= old(c.calls)
    ensures rc == SUCCESS ==>
              && c.at == Standing(c.keys, start, reverse, 1) && 0 <= c.at < |c.keys|
              && key == c.keys[c.at] && key in c.data && value == c.data[key]
    ensures rc == NOTFOUND ==>
              Edge(c.keys, start, reverse) == if reverse then 0 else |c.keys|
    ensures rc != SUCCESS && rc != NOTFOUND ==> exists n :: c.faults(n) == rc
  {
    var op := if start.Some? then SetRange else if reverse then Last else First;
    var from := if start.Some? then start.value else [];
    AtLowerBound(c.keys, from);
    rc, key, value := c.Get(op, from);
    if reverse && start.Some? {
      if rc == NOTFOUND {
        rc, key, value := c.Get(Last, from);
      } else if rc == SUCCESS && Less(from, key) {
        rc, key, value := c.Get(Prev, from);
      }
    }
  }

  lemma AtLowerBound(keys: seq<Bytes>, k: Bytes)
    requires Sorted(keys)
    ensures var i := LowerBound(keys, k); i < |keys| ==> (Less(k, keys[i]) <==> keys[i] != k)
  {
    LowerBoundSplits(keys, k);
    var i := LowerBound(keys, k);
    if i < |keys| {
      LessTotal(keys[i], k);
      LessIrreflexive(k);
    }
  }

  lemma WalkAt(keys: seq<Bytes>, start: Option<Bytes>, reverse: bool, n: nat)
    ensures var i := Edge(keys, start, reverse);
            && |Walk(keys, start, reverse)| == (if reverse then i else |keys| - i)
            && (n < |Walk(keys, start, reverse)| ==>
                  Walk(keys, start, reverse)[n] == keys[Standing(keys, start, reverse, n + 1)])
  {}

  /** One turn of the loop: the record after the first `n`. */
  method Fetch(c: Cursor, start: Option<Bytes>, reverse: bool, positioning: bool, ghost n: nat)
    returns (rc: int, key: Bytes, value: Bytes)
    requires c.Valid() && (positioning <==> n == 0)
    requires n > 0 ==> n <= |Walk(c.keys, start, reverse)|
                       && c.at == Standing(c.keys, start, reverse, n)
    modifies c
    ensures c.Valid()
    ensures var walk := Walk(c.keys, start, reverse);
            && (rc == SUCCESS ==>
                  && n < |walk| && key == walk[n] && c.at == Standing(c.keys, start, reverse, n + 1)
                  && key in c.data && value == c.data[key])
            && (rc == NOTFOUND ==> n == |walk|)
            && (rc != SUCCESS && rc != NOTFOUND ==> exists m :: c.faults(m) == rc)
  {
    WalkAt(c.keys, start, reverse, n);
    if positioning {
      rc, key, value := Position(c, start, reverse);
    } else {
      rc, key, value := c.Get(if reverse then Prev else Next, []);
    }
  }

  /** The first records of a walk, collected. */
  predicate Collected(data: map<Bytes, Bytes>, walk: seq<Bytes>, wantValues: bool,
                      keys: seq<Bytes>, values: seq<Bytes>)
  {
    && |keys| <= |walk| && keys == walk[..|keys|]
    && (if wantValues then Parallel(data, keys, values) else values == [])
  }

  predicate Parallel(data: map<Bytes, Bytes>, keys: seq<Bytes>, values: seq<Bytes>) {
    && |values| == |keys|
    && forall i :: 0 <= i < |keys| ==> keys[i] in data && values[i] == data[keys[i]]
  }

  lemma CollectMore(data: map<Bytes, Bytes>, walk: seq<Bytes>, wantValues: bool,
                    keys: seq<Bytes>, values: seq<Bytes>, key: Bytes)
    requires Collected(data, walk, wantValues, keys, values) && key in data
    requires |keys| < |walk| && key == walk[|keys|]
    ensures Collected(data, walk, wantValues, keys + [key],
                      if wantValues then values + [data[key]] else values)
  {}

  /** scan_call. `limit` is a size_t. The cursor may fail to open, or fail later. */
  method ScanCall(t: Table<Bytes>, limit: nat, wantValues: bool, start: Option<Bytes>,
                  reverse: bool, faults: nat -> int)
    returns (rc: int, keys: seq<Bytes>, values: seq<Bytes>)
    requires Wf(t) && forall n :: faults(n) != NOTFOUND
    ensures keys <= ExpectedKeys(t.keys, limit, start, reverse)
    ensures rc == SUCCESS ==> keys == ExpectedKeys(t.keys, limit, start, reverse)
    ensures rc != SUCCESS ==> exists n :: faults(n) == rc
    ensures faults(0) != SUCCESS ==> rc == faults(0) && keys == []
    ensures if wantValues then Parallel(t.data, keys, values) else values == []
  {
    ghost var walk := Walk(t.keys, start, reverse);
    rc, keys, values := faults(0), [], [];
    if rc != SUCCESS {
      return;
    }
    var c := new Cursor(t, faults);
    var positioning := true;
    while |keys| < limit
      invariant c.Valid() && c.keys == t.keys && c.data == t.data && c.faults == faults
      invariant rc == SUCCESS && |keys| <= limit
      invariant Collected(t.data, walk, wantValues, keys, values)
      invariant positioning <==> |keys| == 0
      invariant |keys| > 0 ==> c.at == Standing(t.keys, start, reverse, |keys|)
      decreases |walk| - |keys|
    {
      var got, key, value := Fetch(c, start, reverse, positioning, |keys|);
      positioning := false;
      if got == NOTFOUND {
        break;
      }
      if got != SUCCESS {
        rc := got;
        break;
      }
      CollectMore(t.data, walk, wantValues, keys, values, key);
      keys := keys + [key];
      if wantValues {
        values := values + [value];
      }
    }
    CollectedIsExpected(t, limit, start, reverse, wantValues, keys, values);
  }

  lemma CollectedIsExpected(t: Table<Bytes>, limit: nat, start: Option<Bytes>, reverse: bool,
                            wantValues: bool, keys: seq<Bytes>, values: seq<Bytes>)
    requires Sorted(t.keys) && |keys| <= limit
    requires Collected(t.data, Walk(t.keys, start, reverse), wantValues, keys, values)
    ensures keys <= ExpectedKeys(t.keys, limit, start, reverse)
    ensures |keys| == limit || |keys| == |Walk(t.keys, start, reverse)| ==>
              keys == ExpectedKeys(t.keys, limit, start, reverse)
  {
    KeptIsWalk(t.keys, start, reverse);
  }
}
