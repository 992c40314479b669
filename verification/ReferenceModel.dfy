/** The observable behaviour of databases, as the package's own reference model states it:
    a store of named maps with sequence counters, and what each command does to it. */
module ReferenceModel {
  import opened Bytes

  datatype Db = Main | Named(name: Bytes)

  datatype Store = Store(
    main: map<Bytes, Bytes>,
    named: map<Bytes, map<Bytes, Bytes>>,
    sequences: map<Db, nat>)

  const EMPTY_STORE := Store(map[], map[], map[Main := 0])

  predicate Exists(s: Store, db: Db) { db.Main? || db.name in s.named }

  function Contents(s: Store, db: Db): map<Bytes, Bytes>
    requires Exists(s, db)
  {
    if db.Main? then s.main else s.named[db.name]
  }

  function WithContents(s: Store, db: Db, records: map<Bytes, Bytes>): Store {
    if db.Main? then s.(main := records) else s.(named := s.named[db.name := records])
  }

  function Counter(s: Store, db: Db): nat {
    if db in s.sequences then s.sequences[db] else 0
  }

  /** model_put: an existing key is left alone unless `overwrite`. */
  function Put(s: Store, db: Db, key: Bytes, value: Bytes, overwrite: bool): (Store, bool)
    requires Exists(s, db)
  {
    if key in Contents(s, db) && !overwrite then (s, false)
    else (WithContents(s, db, Contents(s, db)[key := value]), true)
  }

  /** model_del: reports whether a record was there. */
  function Del(s: Store, db: Db, key: Bytes): (Store, bool)
    requires Exists(s, db)
  {
    (WithContents(s, db, Contents(s, db) - {key}), key in Contents(s, db))
  }

  /** model_dbi_create: nothing happens when the database is already there. */
  function Create(s: Store, name: Bytes): Store {
    if name in s.named then s
    else s.(named := s.named[name := map[]], sequences := s.sequences[Named(name) := 0])
  }

  /** model_dbi_drop: emptying resets the counter only when there was something to empty. */
  function Drop(s: Store, db: Db, delete: bool): Store
    requires Exists(s, db) && (delete ==> db.Named?)
  {
    if delete then
      s.(named := s.named - {db.name}, sequences := s.sequences - {db})
    else
      var emptied := WithContents(s, db, map[]);
      if Contents(s, db) == map[] then emptied
      else emptied.(sequences := emptied.sequences[db := 0])
  }

  /** model_sequence: the value before the increment. */
  function Reserve(s: Store, db: Db, increment: nat): (Store, nat) {
    if increment > 0 then
      (s.(sequences := s.sequences[db := Counter(s, db) + increment]), Counter(s, db))
    else (s, Counter(s, db))
  }

  // -------------------------------------------------------------------------
  // What the commands do, told by what can be read
  // -------------------------------------------------------------------------

  function Reads(s: Store, db: Db, key: Bytes): Option<Bytes> {
    if Exists(s, db) && key in Contents(s, db) then Some(Contents(s, db)[key]) else None
  }

  predicate HasRecords(s: Store, db: Db) { Exists(s, db) && exists k :: k in Contents(s, db) }

  /** Creating loses nothing, and what it adds is empty and counts from zero. */
  lemma CreateAdds(s: Store, name: Bytes, db: Db, key: Bytes)
    ensures var r := Create(s, name);
            && (Exists(r, db) <==> Exists(s, db) || db == Named(name))
            && Reads(r, db, key) == Reads(s, db, key)
            && Counter(r, db) == if Exists(s, db) || db != Named(name) then Counter(s, db) else 0
  {}

  /** A put stores unless it may not overwrite; then that key reads the value, and nothing else reads
      differently. */
  lemma PutWrites(s: Store, db: Db, key: Bytes, value: Bytes, overwrite: bool, other: Db, k: Bytes)
    requires Exists(s, db)
    ensures var (r, stored) := Put(s, db, key, value, overwrite);
            && (stored <==> overwrite || Reads(s, db, key) == None)
            && Reads(r, other, k) == (if stored && other == db && k == key then Some(value)
                                      else Reads(s, other, k))
            && (Exists(r, other) <==> Exists(s, other)) && Counter(r, other) == Counter(s, other)
  {}

  /** A delete removes that record, and says whether it was there. */
  lemma DelRemoves(s: Store, db: Db, key: Bytes, other: Db, k: Bytes)
    requires Exists(s, db)
    ensures var (r, found) := Del(s, db, key);
            && (found <==> Reads(s, db, key).Some?)
            && Reads(r, other, k) == (if other == db && k == key then None else Reads(s, other, k))
            && (Exists(r, other) <==> Exists(s, other)) && Counter(r, other) == Counter(s, other)
  {}

  /** Dropping empties that database, or removes it. Its counter starts over if it is removed or had
      anything to empty. */
  lemma DropEmpties(s: Store, db: Db, delete: bool, other: Db, k: Bytes)
    requires Exists(s, db) && (delete ==> db.Named?)
    ensures var r := Drop(s, db, delete);
            && Reads(r, other, k) == (if other == db then None else Reads(s, other, k))
            && (Exists(r, other) <==> Exists(s, other) && !(delete && other == db))
            && Counter(r, other) == if other == db && (delete || HasRecords(s, db)) then 0
                                    else Counter(s, other)
  {
    if Contents(s, db) != map[] {
      var k :| k in Contents(s, db);
      assert HasRecords(s, db);
    }
  }

  /** Reserving answers with the counter and moves it on, and touches no record. */
  lemma ReserveAdvances(s: Store, db: Db, increment: nat, other: Db, k: Bytes)
    ensures var (r, before) := Reserve(s, db, increment);
            && before == Counter(s, db)
            && Counter(r, other) == Counter(s, other) + (if other == db then increment else 0)
            && Reads(r, other, k) == Reads(s, other, k) && (Exists(r, other) <==> Exists(s, other))
  {}
}
