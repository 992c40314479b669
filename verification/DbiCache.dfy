/** The database handles a transaction keeps. libmdbx addresses databases by number; callers name
    them, and each name is resolved once per transaction. Every operation below is specified by
    name alone, against the reference model. */
module DbiCache {
  import opened Bytes
  import opened Native
  import opened ReferenceModel
  import opened Counters
  import Scan

  const KEYEXIST := -30799
  const DBS_FULL := -30791
  const INCOMPATIBLE := -30784
  const BAD_DBI := -30780

  // -------------------------------------------------------------------------
  // What libmdbx keeps
  // -------------------------------------------------------------------------

  /** A transaction's view of the databases, and which database each handle number stands for.
      A number may outlive its database. */
  datatype View = View(store: Store, handles: map<nat, Db>)

  predicate Distinct(handles: map<nat, Db>) {
    forall c, d :: c in handles && d in handles && handles[c] == handles[d] ==> c == d
  }

  /** A key of the main database is a record or the name of a database, never both; a database
      that is not there has no counter. */
  predicate Tidy(s: Store) {
    && (forall k :: k in s.main ==> k !in s.named)
    && (forall db :: db in s.sequences ==> Exists(s, db))
  }

  predicate Sound(v: View) { Distinct(v.handles) && Tidy(v.store) }

  /** What opening `db` afresh gives in this view. */
  predicate Fresh(v: View, db: Db, dbi: nat) {
    Exists(v.store, db) && dbi in v.handles && v.handles[dbi] == db
  }

  predicate Addresses(v: View, dbi: nat) { dbi in v.handles && Exists(v.store, v.handles[dbi]) }

  /** A named database is a record in main, which only the calls for databases may touch. */
  predicate Clash(s: Store, db: Db, key: Bytes) { db.Main? && key in s.named }

  /** Whatever an open adds, existing numbers keep standing for what they did. */
  predicate Extends(before: map<nat, Db>, after: map<nat, Db>) {
    forall d :: d in before ==> d in after && after[d] == before[d]
  }

  /** Emptying main purges the tree that records the named databases. */
  function Dropped(s: Store, db: Db, delete: bool): Store
    requires Exists(s, db)
  {
    if db.Named? || s.named == map[] then Drop(s, db, delete && db.Named?)
    else Store(map[], map[], map[Main := 0])
  }

  function AfterDrop(v: View, dbi: nat, delete: bool): View
    requires Addresses(v, dbi)
  {
    var db := v.handles[dbi];
    View(Dropped(v.store, db, delete),
         if delete && db.Named? then v.handles - {dbi} else v.handles)
  }

  class Library {
    var view: View
    var calls: nat
    const faults: nat -> int     // a status of its own for the nth call, or 0
    const slot: nat -> nat       // the number the nth call would give a database it opens

    constructor (v: View, faults: nat -> int, slot: nat -> nat)
      ensures view == v && this.faults == faults
    {
      view, calls, this.faults, this.slot := v, 0, faults, slot;
    }

    method Attempt() returns (rc: int)
      modifies this`calls
      ensures rc == SUCCESS || exists n :: faults(n) == rc
    {
      rc := faults(calls);
      calls := calls + 1;
    }

    /** mdbx_dbi_open. */
    method Open(db: Db, create: bool) returns (rc: int, dbi: nat)
      requires Sound(view)
      modifies this
      ensures Sound(view) && Extends(old(view).handles, view.handles)
      ensures rc == SUCCESS ==> Fresh(view, db, dbi)
      ensures rc == SUCCESS ==> forall d | Fresh(old(view), db, d) :: d == dbi
      ensures rc == SUCCESS ==>
                view.store == if create && db.Named? then Create(old(view).store, db.name)
                              else old(view).store
      ensures rc == SUCCESS && !create ==> Exists(old(view).store, db)
      ensures rc != SUCCESS ==> view == old(view)
      ensures rc == Scan.NOTFOUND ==>
                (!create && !Exists(view.store, db)) || exists n :: faults(n) == rc
      ensures rc in {SUCCESS, Scan.NOTFOUND, DBS_FULL, INCOMPATIBLE} || exists n :: faults(n) == rc
    {
      dbi := 0;
      rc := Attempt();
      if rc != SUCCESS {
        return;
      }
      if db.Named? && db.name in view.store.main {
        return INCOMPATIBLE, 0;
      }
      if !Exists(view.store, db) && !create {
        return Scan.NOTFOUND, 0;
      }
      var store := if create && db.Named? then Create(view.store, db.name) else view.store;
      if d :| d in view.handles && view.handles[d] == db {
        view := View(store, view.handles);
        return SUCCESS, d;
      }
      var d := slot(calls);
      if d in view.handles {
        return DBS_FULL, 0;
      }
      view := View(store, view.handles[d := db]);
      return SUCCESS, d;
    }

    /** mdbx_get. */
    method Get(dbi: nat, key: Bytes) returns (rc: int, value: Bytes)
      modifies this`calls
      ensures rc == BAD_DBI ==> !Addresses(view, dbi) || exists n :: faults(n) == rc
      ensures rc in {SUCCESS, Scan.NOTFOUND, INCOMPATIBLE, BAD_DBI} || exists n :: faults(n) == rc
      ensures rc == SUCCESS ==>
                Addresses(view, dbi) && key in Contents(view.store, view.handles[dbi])
                && value == Contents(view.store, view.handles[dbi])[key]
      ensures rc == Scan.NOTFOUND ==>
                (Addresses(view, dbi) && key !in Contents(view.store, view.handles[dbi]))
                || exists n :: faults(n) == rc
    {
      value := [];
      rc := Attempt();
      if rc != SUCCESS {
        return;
      }
      if !Addresses(view, dbi) {
        return BAD_DBI, [];
      }
      var db := view.handles[dbi];
      if Clash(view.store, db, key) {
        return INCOMPATIBLE, [];
      }
      var records := Contents(view.store, db);
      if key in records {
        return SUCCESS, records[key];
      }
      return Scan.NOTFOUND, [];
    }

    /** mdbx_put. */
    method Put(dbi: nat, key: Bytes, value: Bytes, overwrite: bool) returns (rc: int)
      modifies this
      ensures view.handles == old(view).handles
      ensures rc == BAD_DBI ==> !Addresses(old(view), dbi) || exists n :: faults(n) == rc
      ensures rc in {SUCCESS, KEYEXIST, INCOMPATIBLE, BAD_DBI} || exists n :: faults(n) == rc
      ensures rc != SUCCESS ==> view == old(view)
      ensures rc == SUCCESS ==>
                Addresses(old(view), dbi)
                && !Clash(view.store, view.handles[dbi], key)
                && (view.store, true)
                   == ReferenceModel.Put(old(view).store, view.handles[dbi], key, value, overwrite)
      ensures rc == KEYEXIST ==>
                (Addresses(view, dbi) && !overwrite && key in Contents(view.store, view.handles[dbi]))
                || exists n :: faults(n) == rc
    {
      rc := Attempt();
      if rc != SUCCESS {
        return;
      }
      if !Addresses(view, dbi) {
        return BAD_DBI;
      }
      var db := view.handles[dbi];
      if Clash(view.store, db, key) {
        return INCOMPATIBLE;
      }
      var records := Contents(view.store, db);
      if key in records && !overwrite {
        return KEYEXIST;
      }
      view := view.(store := WithContents(view.store, db, records[key := value]));
    }

    /** mdbx_del. */
    method Del(dbi: nat, key: Bytes) returns (rc: int)
      modifies this
      ensures view.handles == old(view).handles
      ensures rc == BAD_DBI ==> !Addresses(old(view), dbi) || exists n :: faults(n) == rc
      ensures rc in {SUCCESS, Scan.NOTFOUND, INCOMPATIBLE, BAD_DBI} || exists n :: faults(n) == rc
      ensures rc != SUCCESS ==> view == old(view)
      ensures rc == SUCCESS ==>
                Addresses(old(view), dbi)
                && (view.store, true) == ReferenceModel.Del(old(view).store, view.handles[dbi], key)
      ensures rc == Scan.NOTFOUND ==>
                (Addresses(view, dbi) && key !in Contents(view.store, view.handles[dbi]))
                || exists n :: faults(n) == rc
    {
      rc := Attempt();
      if rc != SUCCESS {
        return;
      }
      if !Addresses(view, dbi) {
        return BAD_DBI;
      }
      var db := view.handles[dbi];
      if Clash(view.store, db, key) {
        return INCOMPATIBLE;
      }
      var records := Contents(view.store, db);
      if key !in records {
        return Scan.NOTFOUND;
      }
      view := view.(store := WithContents(view.store, db, records - {key}));
    }

    /** mdbx_dbi_sequence: the counter before the increment, and its own 64-bit overflow. */
    method Sequence(dbi: nat, increment: nat) returns (rc: int, before: nat)
      modifies this
      ensures view.handles == old(view).handles
      ensures rc == BAD_DBI ==> !Addresses(old(view), dbi) || exists n :: faults(n) == rc
      ensures rc == RESULT_TRUE ==>
                (increment > 0 && Addresses(view, dbi)
                 && Counter(view.store, view.handles[dbi]) + increment >= WRAP)
                || exists n :: faults(n) == rc
      ensures rc in {SUCCESS, RESULT_TRUE, BAD_DBI} || exists n :: faults(n) == rc
      ensures rc != SUCCESS ==> view == old(view)
      ensures rc == SUCCESS ==>
                Addresses(old(view), dbi)
                && (view.store, before) == Reserve(old(view).store, view.handles[dbi], increment)
    {
      before := 0;
      rc := Attempt();
      if rc != SUCCESS {
        return;
      }
      if !Addresses(view, dbi) {
        return BAD_DBI, 0;
      }
      var db := view.handles[dbi];
      var current := Counter(view.store, db);
      if increment == 0 {
        return SUCCESS, current;
      }
      if current + increment >= WRAP {
        return RESULT_TRUE, current;
      }
      view := view.(store := view.store.(sequences := view.store.sequences[db := current + increment]));
      return SUCCESS, current;
    }

    /** mdbx_drop. For main `delete` is not looked at. */
    method Drop(dbi: nat, delete: bool) returns (rc: int)
      modifies this
      ensures rc == BAD_DBI ==> !Addresses(old(view), dbi) || exists n :: faults(n) == rc
      ensures rc in {SUCCESS, BAD_DBI} || exists n :: faults(n) == rc
      ensures rc != SUCCESS ==> view == old(view)
      ensures rc == SUCCESS ==> Addresses(old(view), dbi) && view == AfterDrop(old(view), dbi, delete)
    {
      rc := Attempt();
      if rc != SUCCESS {
        return;
      }
      if !Addresses(view, dbi) {
        return BAD_DBI;
      }
      view := AfterDrop(view, dbi, delete);
    }

    /** mdbx_enumerate_tables, stopped at the first. */
    method AnyTables() returns (rc: int, any: bool)
      modifies this`calls
      ensures rc == SUCCESS || exists n :: faults(n) == rc
      ensures rc == SUCCESS ==> any == (view.store.named != map[])
    {
      rc := Attempt();
      any := view.store.named != map[];
    }
  }

  // -------------------------------------------------------------------------
  // What the transaction keeps
  // -------------------------------------------------------------------------

  datatype Entry = Entry(name: Bytes, dbi: nat)

  /** The numbers a transaction has kept: each name at most once, each number what a fresh open
      would give. */
  predicate Agree(v: View, named: seq<Entry>, mainReady: bool, mainDbi: nat) {
    && (forall i, j :: 0 <= i < j < |named| ==> named[i].name != named[j].name)
    && (forall i :: 0 <= i < |named| ==> Fresh(v, Named(named[i].name), named[i].dbi))
    && (mainReady ==> Fresh(v, Main, mainDbi))
  }

  /** Agreement depends only on which databases there are and what numbers stand for. */
  lemma AgreeCarries(v: View, w: View, named: seq<Entry>, mainReady: bool, mainDbi: nat)
    requires Agree(v, named, mainReady, mainDbi)
    requires Extends(v.handles, w.handles) && forall n :: n in v.store.named ==> n in w.store.named
    ensures Agree(w, named, mainReady, mainDbi)
  {}

  function Without(named: seq<Entry>, name: Bytes): seq<Entry> {
    if named == [] then []
    else if named[0].name == name then named[1..]
    else [named[0]] + Without(named[1..], name)
  }

  lemma {:induction false} WithoutMembers(named: seq<Entry>, name: Bytes)
    requires forall i, j :: 0 <= i < j < |named| ==> named[i].name != named[j].name
    ensures var r := Without(named, name);
            && (forall i, j :: 0 <= i < j < |r| ==> r[i].name != r[j].name)
            && (forall e :: e in r <==> e in named && e.name != name)
  {
    if named != [] {
      assert named == [named[0]] + named[1..];
      if named[0].name != name {
        var rest := Without(named[1..], name);
        WithoutMembers(named[1..], name);
        forall i | 0 <= i < |rest| ensures rest[i].name != named[0].name { assert rest[i] in named[1..]; }
      }
    }
  }

  /** Deleting a database spends its number: the entry has to go. */
  lemma AgreeAfterDelete(v: View, named: seq<Entry>, mainReady: bool, mainDbi: nat, dbi: nat, name: Bytes)
    requires Sound(v) && Agree(v, named, mainReady, mainDbi) && Fresh(v, Named(name), dbi)
    ensures Agree(AfterDrop(v, dbi, true), Without(named, name), mainReady, mainDbi)
  {
    WithoutMembers(named, name);
    var r := Without(named, name);
    forall i | 0 <= i < |r| ensures Fresh(AfterDrop(v, dbi, true), Named(r[i].name), r[i].dbi) {
      assert r[i] in r && r[i] in named;
    }
  }

  lemma DeletedEntryDisagrees(v: View, named: seq<Entry>, mainReady: bool, mainDbi: nat, dbi: nat, i: nat)
    requires i < |named| && Fresh(v, Named(named[i].name), dbi)
    ensures !Agree(AfterDrop(v, dbi, true), named, mainReady, mainDbi)
  {}

  /** Emptying main would leave the numbers kept for named databases standing for nothing: they
      go on agreeing exactly if there are none. That is why it is refused while there are any. */
  lemma EmptyingMainAgreesIff(v: View, named: seq<Entry>, mainReady: bool, mainDbi: nat, dbi: nat)
    requires Agree(v, named, mainReady, mainDbi) && Fresh(v, Main, dbi)
    ensures Agree(AfterDrop(v, dbi, false), named, mainReady, mainDbi) <==> named == []
  {
    if named != [] {
      assert Fresh(v, Named(named[0].name), named[0].dbi);
      assert v.store.named != map[];
      assert !Fresh(AfterDrop(v, dbi, false), Named(named[0].name), named[0].dbi);
    }
  }

  lemma DropSound(v: View, dbi: nat, delete: bool)
    requires Sound(v) && Addresses(v, dbi)
    ensures Sound(AfterDrop(v, dbi, delete))
  {}

  lemma PutTidy(s: Store, db: Db, key: Bytes, value: Bytes, overwrite: bool)
    requires Tidy(s) && Exists(s, db) && !Clash(s, db, key)
    ensures Tidy(Put(s, db, key, value, overwrite).0)
    ensures Put(s, db, key, value, overwrite).0.named.Keys == s.named.Keys
  {}

  lemma DelTidy(s: Store, db: Db, key: Bytes)
    requires Tidy(s) && Exists(s, db)
    ensures Tidy(Del(s, db, key).0) && Del(s, db, key).0.named.Keys == s.named.Keys
  {}

  lemma ReserveTidy(s: Store, db: Db, increment: nat)
    requires Tidy(s) && Exists(s, db)
    ensures Tidy(Reserve(s, db, increment).0) && Reserve(s, db, increment).0.named == s.named
  {}

  /** An answer, or why there is none. */
  datatype Reply<+T> = Answer(value: T) | ReadOnly | Missing | Refused | Failed(rc: int) {
    predicate IsFailure() { !Answer? }
    function PropagateFailure<U>(): Reply<U>
      requires IsFailure()
    {
      match this
      case ReadOnly => ReadOnly
      case Missing => Missing
      case Refused => Refused
      case Failed(rc) => Failed(rc)
    }
    function Extract(): T
      requires !IsFailure()
    {
      value
    }
  }

  /** Which statuses an operation on `db` can end with: never a bad handle, unless libmdbx says so
      of its own accord. */
  ghost predicate Excused(faults: nat -> int, rc: int) {
    rc in {DBS_FULL, INCOMPATIBLE} || exists n :: faults(n) == rc
  }

  class TxnHandle {
    const native: Library
    const write: bool
    var dbi: nat
    var mainDbi: nat
    var mainReady: bool
    var named: seq<Entry>

    ghost predicate Valid()
      reads this, native
    {
      Sound(native.view) && Agree(native.view, named, mainReady, mainDbi)
    }

    ghost function Databases(): Store
      reads this, native
    {
      native.view.store
    }

    constructor (native: Library, write: bool)
      requires Sound(native.view)
      ensures Valid() && this.native == native && this.write == write && named == [] && !mainReady
    {
      this.native, this.write := native, write;
      dbi, mainDbi, mainReady, named := 0, 0, false, [];
    }

    /** The loop of ensure_dbi(). */
    method Kept(name: Bytes) returns (found: bool, at: nat)
      ensures if found then at < |named| && named[at].name == name
              else forall i :: 0 <= i < |named| ==> named[i].name != name
    {
      for i := 0 to |named|
        invariant forall j :: 0 <= j < i ==> named[j].name != name
      {
        if named[i].name == name {
          return true, i;
        }
      }
      return false, 0;
    }

    /** Remember what an open gave. */
    method Keep(name: Bytes, d: nat)
      requires Valid() && Fresh(native.view, Named(name), d)
      modifies this`named
      ensures Valid()
    {
      var found, at := Kept(name);
      if found {
        named := named[at := Entry(name, d)];
      } else {
        named := named + [Entry(name, d)];
      }
    }

    /** ensure_dbi(): `dbi` is what a fresh open would give, whether it was kept or opened now. */
    method EnsureDbi(db: Db) returns (r: Reply<nat>)
      requires Valid()
      modifies this, native
      ensures Valid() && Databases() == old(Databases())
      ensures r.Answer? ==> r.value == dbi && Fresh(native.view, db, dbi)
      ensures r.Missing? ==> !Exists(Databases(), db) || exists n :: native.faults(n) == Scan.NOTFOUND
      ensures r.Failed? ==> Excused(native.faults, r.rc)
      ensures !r.ReadOnly? && !r.Refused?
    {
      if db.Main? {
        if mainReady {
          dbi := mainDbi;
          return Answer(dbi);
        }
      } else {
        var found, at := Kept(db.name);
        if found {
          dbi := named[at].dbi;
          return Answer(dbi);
        }
      }
      ghost var before := native.view;
      var rc, d := native.Open(db, false);
      AgreeCarries(before, native.view, named, mainReady, mainDbi);
      if rc == Scan.NOTFOUND && db.Named? {
        return Missing;
      }
      if rc != SUCCESS {
        return Failed(rc);
      }
      if db.Main? {
        mainDbi, mainReady := d, true;
      } else {
        Keep(db.name, d);
      }
      dbi := d;
      return Answer(d);
    }

    /** mdbx_dbi_open_(). */
    method DbiOpen(name: Bytes, create: bool) returns (r: Reply<()>)
      requires Valid()
      modifies this, native
      ensures Valid()
      ensures r.ReadOnly? <==> create && !write
      ensures r.Answer? ==> Exists(Databases(), Named(name))
      ensures r.Answer? ==>
                Databases() == if create then Create(old(Databases()), name) else old(Databases())
      ensures !r.Answer? ==> Databases() == old(Databases())
      ensures r.Missing? ==> (!create && !Exists(Databases(), Named(name)))
                             || exists n :: native.faults(n) == Scan.NOTFOUND
      ensures r.Failed? ==> Excused(native.faults, r.rc)
    {
      if create && !write {
        return ReadOnly;
      }
      ghost var before := native.view;
      var rc, d := native.Open(Named(name), create);
      AgreeCarries(before, native.view, named, mainReady, mainDbi);
      if rc == Scan.NOTFOUND {
        return Missing;
      }
      if rc != SUCCESS {
        return Failed(rc);
      }
      Keep(name, d);
      return Answer(());
    }

    /** mdbx_get_(). */
    method Get(db: Db, key: Bytes) returns (r: Reply<Option<Bytes>>)
      requires Valid() && forall n :: native.faults(n) != Scan.NOTFOUND
      modifies this, native
      ensures Valid() && Databases() == old(Databases())
      ensures r.Missing? ==> !Exists(Databases(), db)
      ensures r.Answer? ==> Exists(Databases(), db)
      ensures r.Answer? ==>
                r.value == if key in Contents(Databases(), db)
                           then Some(Contents(Databases(), db)[key]) else None
      ensures r.Failed? ==> Excused(native.faults, r.rc)
      ensures !r.ReadOnly? && !r.Refused?
    {
      var d :- EnsureDbi(db);
      var rc, value := native.Get(d, key);
      if rc == Scan.NOTFOUND {
        return Answer(None);
      }
      if rc != SUCCESS {
        return Failed(rc);
      }
      return Answer(Some(value));
    }

    /** mdbx_put_(). */
    method Put(db: Db, key: Bytes, value: Bytes, overwrite: bool) returns (r: Reply<bool>)
      requires Valid() && forall n :: native.faults(n) !in {Scan.NOTFOUND, KEYEXIST}
      modifies this, native
      ensures Valid()
      ensures r.ReadOnly? <==> !write
      ensures r.Missing? ==> !Exists(Databases(), db)
      ensures r.Answer? ==> Exists(old(Databases()), db)
      ensures r.Answer? ==>
                (Databases(), r.value) == ReferenceModel.Put(old(Databases()), db, key, value, overwrite)
      ensures !r.Answer? ==> Databases() == old(Databases())
      ensures r.Failed? ==> Excused(native.faults, r.rc)
      ensures !r.Refused?
    {
      if !write {
        return ReadOnly;
      }
      var d :- EnsureDbi(db);
      ghost var before := native.view;
      var rc := native.Put(d, key, value, overwrite);
      if rc == KEYEXIST {
        return Answer(false);
      }
      if rc != SUCCESS {
        return Failed(rc);
      }
      PutTidy(before.store, db, key, value, overwrite);
      AgreeCarries(before, native.view, named, mainReady, mainDbi);
      return Answer(true);
    }

    /** mdbx_del_(). */
    method Del(db: Db, key: Bytes) returns (r: Reply<bool>)
      requires Valid() && forall n :: native.faults(n) != Scan.NOTFOUND
      modifies this, native
      ensures Valid()
      ensures r.ReadOnly? <==> !write
      ensures r.Missing? ==> !Exists(Databases(), db)
      ensures r.Answer? ==> Exists(old(Databases()), db)
      ensures r.Answer? ==> (Databases(), r.value) == ReferenceModel.Del(old(Databases()), db, key)
      ensures !r.Answer? ==> Databases() == old(Databases())
      ensures r.Failed? ==> Excused(native.faults, r.rc)
      ensures !r.Refused?
    {
      if !write {
        return ReadOnly;
      }
      var d :- EnsureDbi(db);
      ghost var before := native.view;
      var rc := native.Del(d, key);
      if rc == Scan.NOTFOUND {
        DelAbsent(before.store, db, key);
        return Answer(false);
      }
      if rc != SUCCESS {
        return Failed(rc);
      }
      DelTidy(before.store, db, key);
      AgreeCarries(before, native.view, named, mainReady, mainDbi);
      return Answer(true);
    }

    /** mdbx_dbi_sequence(), R's check of the increment included. The counter is read before it is
        advanced, so that a refusal changes nothing. */
    method Sequence(db: Db, increment: Increment) returns (r: Reply<nat>)
      requires Valid() && forall n :: native.faults(n) != Scan.NOTFOUND
      modifies this, native
      ensures Valid()
      ensures r.Missing? ==> !Exists(Databases(), db)
      ensures r.ReadOnly? <==> CheckIncrement(increment) > 0 && !write
      ensures r.Refused? ==>
                CheckIncrement(increment) == -1
                || Counter(Databases(), db) + CheckIncrement(increment) > EXACT
      ensures CheckIncrement(increment) == -1 ==> r.Refused?
      ensures r.Answer? ==>
                Exists(Databases(), db) && CheckIncrement(increment) >= 0
                && Databases() == Reserve(old(Databases()), db, CheckIncrement(increment)).0
                && r.value == ToDouble(Counter(old(Databases()), db))
      ensures r.Answer? && CheckIncrement(increment) > 0 ==>
                r.value == Counter(old(Databases()), db)
                && r.value + CheckIncrement(increment) <= EXACT
      ensures !r.Answer? ==> Databases() == old(Databases())
      ensures r.Failed? ==> Excused(native.faults, r.rc)
    {
      var n := CheckIncrement(increment);
      if n == -1 {
        return Refused;
      }
      if n > 0 && !write {
        return ReadOnly;
      }
      var d :- EnsureDbi(db);
      ghost var before := native.view;
      var rc, counter := native.Sequence(d, 0);
      if rc != SUCCESS {
        return Failed(rc);
      }
      var current := ToDouble(counter);
      if n <= 0 {
        return Answer(current);
      }
      RefusesExactly(counter, n);
      if !(n <= EXACT) || current > EXACT - n {
        return Refused;
      }
      ExactBelow(counter);
      rc, counter := native.Sequence(d, n);
      if rc != SUCCESS {
        return Failed(rc);
      }
      ReserveTidy(before.store, db, n);
      AgreeCarries(before, native.view, named, mainReady, mainDbi);
      return Answer(ToDouble(counter));
    }

    /** mdbx_dbi_drop_(). Main cannot be deleted, and not emptied while there are named databases. */
    method DbiDrop(db: Db, delete: bool) returns (r: Reply<()>)
      requires Valid() && forall n :: native.faults(n) != Scan.NOTFOUND
      modifies this, native
      ensures Valid()
      ensures r.ReadOnly? <==> !write
      ensures r.Missing? ==> !Exists(Databases(), db)
      ensures r.Refused? ==> db.Main? && (delete || Databases().named != map[])
      ensures r.Answer? ==> Exists(old(Databases()), db)
      ensures r.Answer? ==> !(db.Main? && (delete || Databases().named != map[]))
      ensures r.Answer? ==> Databases() == Drop(old(Databases()), db, delete)
      ensures !r.Answer? ==> Databases() == old(Databases())
      ensures r.Failed? ==> Excused(native.faults, r.rc)
    {
      if !write {
        return ReadOnly;
      }
      if !delete && db.Main? {
        var rc, any := native.AnyTables();
        if rc != SUCCESS {
          return Failed(rc);
        }
        if any {
          return Refused;
        }
      }
      if delete && db.Main? {
        return Refused;
      }
      var d :- EnsureDbi(db);
      ghost var before := native.view;
      var rc := native.Drop(d, delete);
      if rc != SUCCESS {
        return Failed(rc);
      }
      DropSound(before, d, delete);
      if delete {
        AgreeAfterDelete(before, named, mainReady, mainDbi, d, db.name);
        named := Without(named, db.name);
      } else {
        AgreeCarries(before, native.view, named, mainReady, mainDbi);
      }
      return Answer(());
    }
  }

  lemma DelAbsent(s: Store, db: Db, key: Bytes)
    requires Exists(s, db) && key !in Contents(s, db)
    ensures Del(s, db, key) == (s, false)
  {
    assert Contents(s, db) - {key} == Contents(s, db);
    if db.Named? { assert s.named[db.name := s.named[db.name]] == s.named; }
  }

  // -------------------------------------------------------------------------
  // What a caller sees
  // -------------------------------------------------------------------------

  /** Opening a database that may be there already, as the disk cache does each time, loses nothing:
      every key reads as it did. */
  method OpenThenGet(h: TxnHandle, name: Bytes, key: Bytes) returns (r: Reply<Option<Bytes>>)
    requires h.Valid() && forall n :: h.native.faults(n) != Scan.NOTFOUND
    modifies h, h.native
    ensures h.Valid()
    ensures r.Answer? ==> r.value == Reads(old(h.Databases()), Named(name), key)
    ensures forall db, k :: Reads(h.Databases(), db, k) == Reads(old(h.Databases()), db, k)
  {
    ghost var s := h.Databases();
    forall db, k ensures Reads(Create(s, name), db, k) == Reads(s, db, k) { CreateAdds(s, name, db, k); }
    var _ :- h.DbiOpen(name, true);
    r := h.Get(Named(name), key);
  }

  /** A get after a put reads what was put, if it was, and any other key as before. */
  method PutThenGet(h: TxnHandle, db: Db, key: Bytes, value: Bytes, overwrite: bool, other: Db, k: Bytes)
    returns (r: Reply<Option<Bytes>>, stored: bool)
    requires h.Valid() && forall n :: h.native.faults(n) !in {Scan.NOTFOUND, KEYEXIST}
    modifies h, h.native
    ensures h.Valid()
    ensures r.Answer? ==> (stored <==> overwrite || Reads(old(h.Databases()), db, key) == None)
    ensures r.Answer? ==>
              r.value == if stored && other == db && k == key then Some(value)
                         else Reads(old(h.Databases()), other, k)
  {
    ghost var s := h.Databases();
    stored := false;
    var put := h.Put(db, key, value, overwrite);
    if put.IsFailure() {
      return put.PropagateFailure(), false;
    }
    stored := put.value;
    PutWrites(s, db, key, value, overwrite, other, k);
    r := h.Get(other, k);
  }

  /** A get after a delete finds nothing there, and any other key as before. */
  method DelThenGet(h: TxnHandle, db: Db, key: Bytes, other: Db, k: Bytes)
    returns (r: Reply<Option<Bytes>>, found: bool)
    requires h.Valid() && forall n :: h.native.faults(n) != Scan.NOTFOUND
    modifies h, h.native
    ensures h.Valid()
    ensures r.Answer? ==> (found <==> Reads(old(h.Databases()), db, key).Some?)
    ensures r.Answer? ==>
              r.value == if other == db && k == key then None else Reads(old(h.Databases()), other, k)
  {
    ghost var s := h.Databases();
    found := false;
    var del := h.Del(db, key);
    if del.IsFailure() {
      return del.PropagateFailure(), false;
    }
    found := del.value;
    DelRemoves(s, db, key, other, k);
    r := h.Get(other, k);
  }

  /** A get after a drop finds the database empty or gone, and any other as before. */
  method DropThenGet(h: TxnHandle, db: Db, delete: bool, other: Db, k: Bytes)
    returns (r: Reply<Option<Bytes>>)
    requires h.Valid() && forall n :: h.native.faults(n) != Scan.NOTFOUND
    modifies h, h.native
    ensures h.Valid()
    ensures r.Answer? ==>
              r.value == if other == db then None else Reads(old(h.Databases()), other, k)
    ensures r.Answer? ==> !(delete && other == db)
  {
    ghost var s := h.Databases();
    var _ :- h.DbiDrop(db, delete);
    DropEmpties(s, db, delete, other, k);
    r := h.Get(other, k);
  }
}
