/** What committed transactions reserve from a database's counter, over whole histories. */
module Reservations {
  import opened Bytes
  import opened ReferenceModel
  import opened Counters
  import opened DbiCache
  import Scan

  datatype Op =
    | PutOp(db: Db, key: Bytes, payload: Bytes, overwrite: bool)
    | DelOp(db: Db, key: Bytes)
    | CreateOp(name: Bytes)
    | DropOp(db: Db, delete: bool)
    | SequenceOp(db: Db, increment: nat)

  predicate DropRefused(s: Store, db: Db, delete: bool) {
    db.Main? && (delete || s.named != map[])
  }

  /** What the store is after an operation; one that is refused changes nothing. */
  function Apply(s: Store, op: Op): Store {
    match op
    case PutOp(db, key, payload, overwrite) =>
      if Exists(s, db) && !Clash(s, db, key) then Put(s, db, key, payload, overwrite).0 else s
    case DelOp(db, key) =>
      if Exists(s, db) && !Clash(s, db, key) then Del(s, db, key).0 else s
    case CreateOp(name) => if name in s.main then s else Create(s, name)
    case DropOp(db, delete) =>
      if Exists(s, db) && !DropRefused(s, db, delete) then Drop(s, db, delete) else s
    case SequenceOp(db, increment) =>
      if Exists(s, db) && increment > 0 && !Refuses(Counter(s, db), increment)
      then Reserve(s, db, increment).0 else s
  }

  /** What one operation means for one database's counter. */
  datatype Mark = Granted(from: nat, upto: nat) | Reset

  function Marks(s: Store, op: Op, db: Db): seq<Mark> {
    if op.SequenceOp? && op.db == db && Exists(s, db) && op.increment > 0
       && !Refuses(Counter(s, db), op.increment)
    then [Granted(Counter(s, db), Counter(s, db) + op.increment)]
    else if op.DropOp? && op.db == db && Exists(s, db) && !DropRefused(s, db, op.delete)
            && (op.delete || Contents(s, db) != map[])
    then [Reset]
    else []
  }

  /** The counter a log of marks leaves behind. */
  function Standing(log: seq<Mark>): nat {
    if log == [] then 0
    else match log[|log| - 1]
      case Granted(_, upto) => upto
      case Reset => 0
  }

  /** Every grant starts where the counter stood. */
  predicate Orderly(log: seq<Mark>) {
    forall i :: 0 <= i < |log| && log[i].Granted? ==>
      log[i].from == Standing(log[..i]) && log[i].from < log[i].upto <= EXACT
  }

  lemma ApplyTidy(s: Store, op: Op)
    requires Tidy(s)
    ensures Tidy(Apply(s, op))
  {}

  lemma ApplyMarks(s: Store, op: Op, db: Db)
    requires Tidy(s)
    ensures Counter(Apply(s, op), db) ==
            if Marks(s, op, db) == [] then Counter(s, db) else Standing(Marks(s, op, db))
    ensures Marks(s, op, db) != [] && Marks(s, op, db)[0].Granted? ==>
              Marks(s, op, db)[0].from == Counter(s, db)
              && Marks(s, op, db)[0].from < Marks(s, op, db)[0].upto <= EXACT
  {
    if op.SequenceOp? && op.increment > 0 { RefusesExactly(Counter(s, op.db), op.increment); }
  }

  // -------------------------------------------------------------------------
  // Transactions
  // -------------------------------------------------------------------------

  datatype Txn = Txn(ops: seq<Op>, commits: bool)

  datatype Past = Past(store: Store, log: seq<Mark>)

  function RunOps(p: Past, ops: seq<Op>, db: Db): Past {
    if ops == [] then p
    else
      var q := RunOps(p, ops[..|ops| - 1], db);
      var op := ops[|ops| - 1];
      Past(Apply(q.store, op), q.log + Marks(q.store, op, db))
  }

  /** An aborted transaction leaves nothing behind. */
  function Run(txns: seq<Txn>, db: Db): Past {
    if txns == [] then Past(EMPTY_STORE, [])
    else
      var p := Run(txns[..|txns| - 1], db);
      var t := txns[|txns| - 1];
      if t.commits then RunOps(p, t.ops, db) else p
  }

  predicate Kept(p: Past, db: Db) {
    Tidy(p.store) && Orderly(p.log) && Counter(p.store, db) == Standing(p.log)
  }

  lemma OrderlySnoc(log: seq<Mark>, m: Mark)
    requires Orderly(log)
    requires m.Granted? ==> m.from == Standing(log) && m.from < m.upto <= EXACT
    ensures Orderly(log + [m])
  {}

  lemma KeptOp(p: Past, op: Op, db: Db)
    requires Kept(p, db)
    ensures Kept(Past(Apply(p.store, op), p.log + Marks(p.store, op, db)), db)
  {
    ApplyTidy(p.store, op);
    ApplyMarks(p.store, op, db);
    var m := Marks(p.store, op, db);
    if m == [] {
      assert p.log + m == p.log;
    } else {
      assert m == [m[0]];
      OrderlySnoc(p.log, m[0]);
    }
  }

  lemma {:induction false} KeptOps(p: Past, ops: seq<Op>, db: Db)
    requires Kept(p, db)
    ensures Kept(RunOps(p, ops, db), db)
  {
    if ops != [] {
      KeptOps(p, ops[..|ops| - 1], db);
      KeptOp(RunOps(p, ops[..|ops| - 1], db), ops[|ops| - 1], db);
    }
  }

  lemma {:induction false} KeptRun(txns: seq<Txn>, db: Db)
    ensures Kept(Run(txns, db), db)
  {
    if txns != [] {
      KeptRun(txns[..|txns| - 1], db);
      KeptOps(Run(txns[..|txns| - 1], db), txns[|txns| - 1].ops, db);
    }
  }

  // -------------------------------------------------------------------------
  // Disjointness
  // -------------------------------------------------------------------------

  predicate ResetBetween(log: seq<Mark>, i: int, j: int) {
    exists r :: 0 <= i < r < j < |log| && log[r].Reset?
  }

  lemma {:induction false} StandsAbove(log: seq<Mark>, i: nat, j: nat)
    requires Orderly(log) && i < j <= |log| && log[i].Granted?
    requires forall r :: i < r < j ==> log[r].Granted?
    ensures log[i].upto <= Standing(log[..j])
  {
    if i + 1 < j {
      StandsAbove(log, i, j - 1);
      assert log[..j][j - 1] == log[j - 1];
    }
  }

  predicate Holds(m: Mark, n: nat) { m.Granted? && m.from <= n < m.upto }

  ghost predicate Overlap(a: Mark, b: Mark) {
    exists n: nat :: Holds(a, n) && Holds(b, n)
  }

  /** Two grants with no reset between them share no number; as R numbers they differ too. */
  lemma GrantsApart(log: seq<Mark>, i: nat, j: nat)
    requires Orderly(log) && i < j < |log| && log[i].Granted? && log[j].Granted?
    requires !ResetBetween(log, i, j)
    ensures log[i].upto <= log[j].from && !Overlap(log[i], log[j])
    ensures forall m: nat, n: nat | Holds(log[i], m) && Holds(log[j], n) ::
              ToDouble(m) != ToDouble(n)
  {
    StandsAbove(log, i, j);
    forall m: nat, n: nat | Holds(log[i], m) && Holds(log[j], n)
      ensures ToDouble(m) != ToDouble(n)
    {
      ExactBelow(m);
      ExactBelow(n);
    }
  }

  /** The reservations committed transactions hold on a database, in any history, never overlap
      until the database is emptied of records or deleted. */
  lemma ReservationsAreUnique(txns: seq<Txn>, db: Db, i: nat, j: nat)
    requires var log := Run(txns, db).log; i < j < |log| && log[i].Granted? && log[j].Granted?
    ensures var log := Run(txns, db).log;
            !ResetBetween(log, i, j) ==>
              log[i].upto <= log[j].from && !Overlap(log[i], log[j])
              && forall m: nat, n: nat | Holds(log[i], m) && Holds(log[j], n) ::
                   ToDouble(m) != ToDouble(n)
  {
    KeptRun(txns, db);
    if !ResetBetween(Run(txns, db).log, i, j) { GrantsApart(Run(txns, db).log, i, j); }
  }

  ghost predicate AnyOverlap(log: seq<Mark>) {
    exists i, j :: 0 <= i < j < |log| && Overlap(log[i], log[j])
  }

  predicate GrantedAcrossReset(log: seq<Mark>) {
    exists i, j :: 0 <= i < j < |log| && log[i].Granted? && log[j].Granted? && ResetBetween(log, i, j)
  }

  /** The first grant after a place where the counter stood at zero starts at zero. */
  lemma {:induction false} FirstGrant(log: seq<Mark>, r: nat, j: nat) returns (k: nat)
    requires Orderly(log) && r <= j < |log| && log[j].Granted? && Standing(log[..r]) == 0
    ensures r <= k <= j && log[k].Granted? && log[k].from == 0
    decreases j - r
  {
    if log[r].Granted? {
      k := r;
    } else {
      assert Standing(log[..r + 1]) == 0 by { assert log[..r + 1][r].Reset?; }
      k := FirstGrant(log, r + 1, j);
    }
  }

  lemma BothStartAtZero(log: seq<Mark>, i: nat, j: nat)
    requires Orderly(log) && i < j < |log| && log[i].Granted? && log[j].Granted?
    requires ResetBetween(log, i, j)
    ensures AnyOverlap(log)
  {
    var r :| i < r < j && log[r].Reset?;
    assert log[..0] == [];
    var a := FirstGrant(log, 0, i);
    assert Standing(log[..r + 1]) == 0 by { assert log[..r + 1][r].Reset?; }
    var b := FirstGrant(log, r + 1, j);
    assert Holds(log[a], 0) && Holds(log[b], 0);
    assert Overlap(log[a], log[b]);
  }

  /** A number is handed out twice exactly when there are reservations on both sides of a reset. */
  lemma RepeatsIff(log: seq<Mark>)
    requires Orderly(log)
    ensures AnyOverlap(log) <==> GrantedAcrossReset(log)
  {
    if AnyOverlap(log) {
      var i, j :| 0 <= i < j < |log| && Overlap(log[i], log[j]);
      if !ResetBetween(log, i, j) { GrantsApart(log, i, j); }
    }
    if i, j :| 0 <= i < j < |log| && log[i].Granted? && log[j].Granted? && ResetBetween(log, i, j) {
      BothStartAtZero(log, i, j);
    }
  }

  lemma HistoriesRepeatIff(txns: seq<Txn>, db: Db)
    ensures AnyOverlap(Run(txns, db).log) <==> GrantedAcrossReset(Run(txns, db).log)
  {
    KeptRun(txns, db);
    RepeatsIff(Run(txns, db).log);
  }

  // -------------------------------------------------------------------------
  // Records, over whole histories
  // -------------------------------------------------------------------------

  /** Operations that may change what `key` of `db` reads. */
  predicate Touches(op: Op, db: Db, key: Bytes) {
    match op
    case PutOp(d, k, _, _) => d == db && k == key
    case DelOp(d, k) => d == db && k == key
    case DropOp(d, _) => d == db
    case CreateOp(_) => false
    case SequenceOp(_, _) => false
  }

  lemma ApplyReads(s: Store, op: Op, db: Db, key: Bytes)
    requires !Touches(op, db, key)
    ensures Reads(Apply(s, op), db, key) == Reads(s, db, key)
  {
    match op
    case PutOp(d, k, v, o) => if Exists(s, d) { PutWrites(s, d, k, v, o, db, key); }
    case DelOp(d, k) => if Exists(s, d) { DelRemoves(s, d, k, db, key); }
    case DropOp(d, delete) =>
      if Exists(s, d) && !DropRefused(s, d, delete) { DropEmpties(s, d, delete, db, key); }
    case CreateOp(name) => CreateAdds(s, name, db, key);
    case SequenceOp(d, n) => ReserveAdvances(s, d, n, db, key);
  }

  lemma {:induction false} UntouchedReads(s: Store, ops: seq<Op>, db: Db, key: Bytes)
    requires forall op :: op in ops ==> !Touches(op, db, key)
    ensures Reads(ApplyAll(s, ops), db, key) == Reads(s, db, key)
  {
    if ops != [] {
      var n := |ops| - 1;
      UntouchedReads(s, ops[..n], db, key);
      ApplyReads(ApplyAll(s, ops[..n]), ops[n], db, key);
    }
  }

  lemma {:induction false} ApplyAllJoins(s: Store, a: seq<Op>, b: seq<Op>)
    ensures ApplyAll(s, a + b) == ApplyAll(ApplyAll(s, a), b)
  {
    if b == [] {
      assert a + b == a;
    } else {
      var n := |b| - 1;
      assert (a + b)[..|a| + n] == a + b[..n];
      ApplyAllJoins(s, a, b[..n]);
    }
  }

  /** After any history a record that was stored by a put, and not touched since, reads what was put;
      one that was deleted or dropped, and not touched since, is not there. */
  lemma LastTouchReads(s: Store, before: seq<Op>, op: Op, after: seq<Op>, db: Db, key: Bytes)
    requires Touches(op, db, key) && forall o :: o in after ==> !Touches(o, db, key)
    ensures var was := ApplyAll(s, before);
            Reads(ApplyAll(s, before + [op] + after), db, key) ==
            match op
            case PutOp(_, _, payload, overwrite) =>
              if Exists(was, db) && !Clash(was, db, key) && (overwrite || Reads(was, db, key) == None)
              then Some(payload) else Reads(was, db, key)
            case DelOp(_, _) => if Clash(was, db, key) then Reads(was, db, key) else None
            case DropOp(_, delete) => if DropRefused(was, db, delete) then Reads(was, db, key) else None
            case _ => Reads(was, db, key)
  {
    var was := ApplyAll(s, before);
    ApplyAllJoins(s, before, [op]);
    ApplyAllJoins(s, before + [op], after);
    assert [op][..0] == [];
    UntouchedReads(Apply(was, op), after, db, key);
    match op
    case PutOp(d, k, v, o) => if Exists(was, d) { PutWrites(was, d, k, v, o, db, key); }
    case DelOp(d, k) => if Exists(was, d) { DelRemoves(was, d, k, db, key); }
    case DropOp(d, delete) =>
      if Exists(was, d) && !DropRefused(was, d, delete) { DropEmpties(was, d, delete, db, key); }
    case _ =>
  }

  // -------------------------------------------------------------------------
  // The operations of a transaction handle
  // -------------------------------------------------------------------------

  ghost predicate Steady(h: TxnHandle) {
    forall n :: h.native.faults(n) !in {Scan.NOTFOUND, KEYEXIST}
  }

  /** Asking a transaction handle for an operation does what is said of the store above, or, if it
      does not answer, nothing. */
  method Perform(h: TxnHandle, op: Op) returns (answered: bool)
    requires h.Valid() && Steady(h)
    modifies h, h.native
    ensures h.Valid()
    ensures h.Databases() == if answered then Apply(old(h.Databases()), op) else old(h.Databases())
  {
    ghost var s := h.Databases();
    match op
    case PutOp(db, key, payload, overwrite) =>
      var r := h.Put(db, key, payload, overwrite);
      answered := r.Answer?;
      if answered { PutAnswered(s, h.Databases(), db, key, payload, overwrite); }
    case DelOp(db, key) =>
      var r := h.Del(db, key);
      answered := r.Answer?;
      if answered { DelAnswered(s, db, key); }
    case CreateOp(name) =>
      var r := h.DbiOpen(name, true);
      answered := r.Answer?;
    case DropOp(db, delete) =>
      var r := h.DbiDrop(db, delete);
      answered := r.Answer?;
    case SequenceOp(db, increment) =>
      var r := h.Sequence(db, Number(increment as real));
      answered := r.Answer?;
      if answered { SequenceAnswered(s, h.Databases(), db, increment); }
  }

  lemma PutAnswered(s: Store, r: Store, db: Db, key: Bytes, payload: Bytes, overwrite: bool)
    requires Tidy(s) && Tidy(r) && Exists(s, db) && r == Put(s, db, key, payload, overwrite).0
    ensures r == Apply(s, PutOp(db, key, payload, overwrite))
  {
    assert db.Main? ==> key in r.main;
  }

  lemma DelAnswered(s: Store, db: Db, key: Bytes)
    requires Tidy(s) && Exists(s, db)
    ensures Del(s, db, key).0 == Apply(s, DelOp(db, key))
  {
    if Clash(s, db, key) { DelAbsent(s, db, key); }
  }

  lemma SequenceAnswered(s: Store, r: Store, db: Db, increment: nat)
    requires Exists(s, db) && CheckIncrement(Number(increment as real)) == increment
    requires r == Reserve(s, db, increment).0
    requires increment > 0 ==> Counter(s, db) + increment <= EXACT
    ensures r == Apply(s, SequenceOp(db, increment))
  {
    if increment > 0 { RefusesExactly(Counter(s, db), increment); }
  }

  function ApplyAll(s: Store, ops: seq<Op>): Store {
    if ops == [] then s else Apply(ApplyAll(s, ops[..|ops| - 1]), ops[|ops| - 1])
  }

  lemma {:induction false} ApplyAllIsRun(p: Past, ops: seq<Op>, db: Db)
    ensures RunOps(p, ops, db).store == ApplyAll(p.store, ops)
  {
    if ops != [] { ApplyAllIsRun(p, ops[..|ops| - 1], db); }
  }

  /** Those of the operations that answered, in order. */
  function Answered(ops: seq<Op>, did: seq<bool>): seq<Op>
    requires |ops| == |did|
  {
    if ops == [] then []
    else
      var n := |ops| - 1;
      Answered(ops[..n], did[..n]) + if did[n] then [ops[n]] else []
  }

  lemma AnsweredSnoc(s: Store, ops: seq<Op>, did: seq<bool>, op: Op, b: bool)
    requires |ops| == |did|
    ensures ApplyAll(s, Answered(ops + [op], did + [b]))
         == if b then Apply(ApplyAll(s, Answered(ops, did)), op) else ApplyAll(s, Answered(ops, did))
  {
    assert (ops + [op])[..|ops|] == ops && (did + [b])[..|did|] == did;
    var before := Answered(ops, did);
    assert (before + [op])[..|before|] == before && before + [] == before;
  }

  /** A transaction's operations asked of its handle lead where the history of those that answered
      leads. */
  method PerformAll(h: TxnHandle, ops: seq<Op>) returns (did: seq<bool>)
    requires h.Valid() && Steady(h)
    modifies h, h.native
    ensures h.Valid() && |did| == |ops|
    ensures forall db, log ::
              h.Databases() == RunOps(Past(old(h.Databases()), log), Answered(ops, did), db).store
  {
    ghost var s := h.Databases();
    did := [];
    for i := 0 to |ops|
      invariant h.Valid() && |did| == i
      invariant h.Databases() == ApplyAll(s, Answered(ops[..i], did))
    {
      var answered := Perform(h, ops[i]);
      AnsweredSnoc(s, ops[..i], did, ops[i], answered);
      assert ops[..i + 1] == ops[..i] + [ops[i]];
      did := did + [answered];
    }
    assert ops[..|ops|] == ops;
    forall db, log
      ensures h.Databases() == RunOps(Past(s, log), Answered(ops, did), db).store
    {
      ApplyAllIsRun(Past(s, log), Answered(ops, did), db);
    }
  }
}
