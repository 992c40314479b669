/** What every reachable process satisfies, and that every step keeps it. */
module Invariant {
  import opened Bytes
  import opened Native
  import opened Handles

  // -------------------------------------------------------------------------
  // The handles and the registries
  // -------------------------------------------------------------------------

  /** Holding a native transaction, being active and being registered once with an owner are
      one and the same. */
  predicate TxnLinked(s: Proc, t: nat)
    requires t in s.txns
  {
    var h := s.txns[t];
    && (h.txn.Some? <==> h.state.Active?)
    && (h.txn.Some? <==> h.owner.Some?)
    && (h.owner.Some? ==>
          && h.owner.value in s.envs
          && var o := s.envs[h.owner.value];
             o.live == [t] && o.env.Some? && o.pid == h.pid && (h.poisoned ==> o.poisoned))
  }

  predicate EnvLinked(s: Proc, e: nat)
    requires e in s.envs
  {
    var h := s.envs[e];
    && |h.live| <= 1
    && (h.live != [] ==> h.live[0] in s.txns && s.txns[h.live[0]].owner == Some(e))
    && (h.env.Some? <==> e in s.openEnvs)
  }

  predicate SameOpen(s: Proc, d: nat, e: nat)
    requires d in s.envs && e in s.envs
  {
    s.envs[d].key == s.envs[e].key && s.envs[d].pid == s.envs[e].pid
  }

  predicate Registered(s: Proc) {
    && (forall e :: e in s.openEnvs ==> e in s.envs)
    && (forall i, j :: 0 <= i < j < |s.openEnvs| ==> s.openEnvs[i] != s.openEnvs[j])
    && (forall d, e {:trigger SameOpen(s, d, e)} ::
          d in s.openEnvs && e in s.openEnvs && d != e ==> !SameOpen(s, d, e))
  }

  // -------------------------------------------------------------------------
  // The handles and the native ledger
  // -------------------------------------------------------------------------

  predicate EnvNative(s: Proc, e: nat)
    requires e in s.envs
  {
    var h := s.envs[e];
    h.env.Some? ==>
      && h.env.value in s.ledger.envs
      && var n := s.ledger.envs[h.env.value];
         n.pid == h.pid && n.status == if h.poisoned then Broken else Usable
  }

  predicate TxnNative(s: Proc, t: nat)
    requires t in s.txns
  {
    var h := s.txns[t];
    h.txn.Some? ==>
      && h.txn.value in s.ledger.txns
      && var n := s.ledger.txns[h.txn.value];
         && !n.ended && n.write == h.write
         && h.owner.Some? && h.owner.value in s.envs && s.envs[h.owner.value].env == Some(n.env)
  }

  predicate SameEnv(s: Proc, d: nat, e: nat)
    requires d in s.envs && e in s.envs
  {
    s.envs[d].env.Some? && s.envs[d].env == s.envs[e].env
  }

  predicate SameTxn(s: Proc, t: nat, u: nat)
    requires t in s.txns && u in s.txns
  {
    s.txns[t].txn.Some? && s.txns[t].txn == s.txns[u].txn
  }

  predicate HoldersDistinct(s: Proc) {
    && (forall d, e {:trigger SameEnv(s, d, e)} ::
          d in s.envs && e in s.envs && d != e ==> !SameEnv(s, d, e))
    && (forall t, u {:trigger SameTxn(s, t, u)} ::
          t in s.txns && u in s.txns && t != u ==> !SameTxn(s, t, u))
  }

  predicate HoldsEnv(s: Proc, n: nat) { exists e :: e in s.envs && s.envs[e].env == Some(n) }
  predicate HoldsTxn(s: Proc, n: nat) { exists t :: t in s.txns && s.txns[t].txn == Some(n) }

  /** A native environment is held, ended, lost in its own close, or given up once. One that is
      none of the first three is unusable or another process's. */
  predicate EnvAccounted(s: Proc, n: nat)
    requires n in s.ledger.envs
  {
    var native := s.ledger.envs[n];
    var gone := native.status.Closed? || native.status.Lost?;
    && multiset(s.abandoned)[EnvPointer(n)] == (if gone || HoldsEnv(s, n) then 0 else 1)
    && (HoldsEnv(s, n) || !EnvOk(s.ledger, s.pid, n))
    && (native.pid == s.pid || native.pid in s.past)
  }

  /** A native transaction is held, ended, or given up once, and in the last case its
      environment is unusable or another process's. */
  predicate TxnAccounted(s: Proc, n: nat)
    requires n in s.ledger.txns
  {
    var native := s.ledger.txns[n];
    && native.env in s.ledger.envs
    && multiset(s.abandoned)[TxnPointer(n)] == (if native.ended || HoldsTxn(s, n) then 0 else 1)
    && (native.ended || HoldsTxn(s, n) || !EnvOk(s.ledger, s.pid, native.env))
  }

  predicate Numbered(s: Proc) {
    && (forall e :: e in s.envs ==> e < s.unused)
    && (forall t :: t in s.txns ==> t < s.unused)
    && (forall n :: n in s.ledger.envs ==> n < s.unused)
    && (forall n :: n in s.ledger.txns ==> n < s.unused)
    && (forall p :: p in s.abandoned && p.EnvPointer? ==> p.n in s.ledger.envs)
    && (forall p :: p in s.abandoned && p.TxnPointer? ==> p.n in s.ledger.txns)
    && s.pid !in s.past
    && (forall e :: e in s.envs ==> s.envs[e].pid == s.pid || s.envs[e].pid in s.past)
  }

  predicate Linked(s: Proc) {
    && (forall t :: t in s.txns ==> TxnLinked(s, t))
    && (forall e :: e in s.envs ==> EnvLinked(s, e))
  }

  predicate Faithful(s: Proc) {
    && (forall e :: e in s.envs ==> EnvNative(s, e))
    && (forall t :: t in s.txns ==> TxnNative(s, t))
  }

  predicate EnvsAccounted(s: Proc) {
    forall n :: n in s.ledger.envs ==> EnvAccounted(s, n)
  }

  predicate TxnsAccounted(s: Proc) {
    forall n :: n in s.ledger.txns ==> TxnAccounted(s, n)
  }

  predicate Accounted(s: Proc) { EnvsAccounted(s) && TxnsAccounted(s) }

  predicate Inv(s: Proc) {
    && Linked(s)
    && Registered(s)
    && Faithful(s)
    && HoldersDistinct(s)
    && Accounted(s)
    && Numbered(s)
    && !s.ledger.faulted
  }

  lemma SoleEnv(s: Proc, e: nat)
    requires HoldersDistinct(s) && e in s.envs && s.envs[e].env.Some?
    ensures forall d :: d in s.envs && d != e ==> s.envs[d].env != s.envs[e].env
  {
    forall d | d in s.envs && d != e ensures s.envs[d].env != s.envs[e].env {
      assert !SameEnv(s, d, e);
    }
  }

  lemma SoleTxn(s: Proc, t: nat)
    requires HoldersDistinct(s) && t in s.txns && s.txns[t].txn.Some?
    ensures forall u :: u in s.txns && u != t ==> s.txns[u].txn != s.txns[t].txn
  {
    forall u | u in s.txns && u != t ensures s.txns[u].txn != s.txns[t].txn {
      assert !SameTxn(s, u, t);
    }
  }

  /** Handles that hold no more than they did hold it as distinctly. */
  lemma StillDistinct(s: Proc, r: Proc)
    requires HoldersDistinct(s)
    requires forall e :: e in r.envs && r.envs[e].env.Some? ==>
               e in s.envs && s.envs[e].env == r.envs[e].env
    requires forall t :: t in r.txns && r.txns[t].txn.Some? ==>
               t in s.txns && s.txns[t].txn == r.txns[t].txn
    ensures HoldersDistinct(r)
  {
    forall d, e | d in r.envs && e in r.envs && d != e ensures !SameEnv(r, d, e) {
      if d in s.envs && e in s.envs { assert !SameEnv(s, d, e); }
    }
    forall t, u | t in r.txns && u in r.txns && t != u ensures !SameTxn(r, t, u) {
      if t in s.txns && u in s.txns { assert !SameTxn(s, t, u); }
    }
  }

  lemma StartInv(pid: nat)
    ensures Inv(Start(pid))
  {}

  lemma InvNoDangling(s: Proc)
    requires Inv(s)
    ensures NoDangling(s)
  {}

  // -------------------------------------------------------------------------
  // The moves every step is made of
  // -------------------------------------------------------------------------

  /** The ledger after a call that ends and begins nothing: at most environment `n` is now broken,
      and only the data and views may differ otherwise. */
  predicate Quiet(l: Ledger, r: Ledger, n: nat, broke: bool) {
    && r.envs.Keys == l.envs.Keys && r.txns.Keys == l.txns.Keys
    && (forall m :: m in l.envs ==>
          r.envs[m].pid == l.envs[m].pid
          && r.envs[m].status == (if broke && m == n then Broken else l.envs[m].status))
    && (forall t :: t in l.txns ==>
          r.txns[t].env == l.txns[t].env && r.txns[t].write == l.txns[t].write
          && r.txns[t].ended == l.txns[t].ended)
    && r.faulted == l.faulted
  }

  /** The same memory but for a quiet call on the environment of handle `e`, and numbers used up. */
  predicate Quieted(s: Proc, r: Proc, e: nat, broke: bool)
    requires e in s.envs && s.envs[e].env.Some?
  {
    && r == s.(ledger := r.ledger, envs := r.envs, unused := r.unused) && r.unused >= s.unused
    && r.envs == s.envs[e := s.envs[e].(poisoned := s.envs[e].poisoned || broke)]
    && Quiet(s.ledger, r.ledger, s.envs[e].env.value, broke)
  }

  lemma QuietCall(w: World, s: Proc, e: nat, c: Call)
    requires e in s.envs && UsableHandle(s, s.envs[e])
    requires !c.CreateEnv? && !c.CloseEnv? && Touches(s.ledger, c) == s.envs[e].env
    requires Allowed(s.ledger, s.pid, c)
    requires var o := Answer(w, s.ledger, c);
             || o.Panicked? || c.EnvCall? || c.TxnCall? || c.OpenEnv?
             || (c.BeginTxn? && o.rc != SUCCESS)
             || ((c.CommitTxn? || c.AbortTxn?) && o.rc == THREAD_MISMATCH)
    ensures Quieted(s, GuardEnv(w, s, e, c).0, e, Answer(w, s.ledger, c).Panicked?)
  {}

  lemma QuietLinked(s: Proc, r: Proc, e: nat, broke: bool)
    requires Linked(s) && e in s.envs && s.envs[e].env.Some? && Quieted(s, r, e, broke)
    ensures Linked(r)
  {}

  lemma QuietFaithful(s: Proc, r: Proc, e: nat, broke: bool)
    requires Faithful(s) && HoldersDistinct(s)
    requires e in s.envs && s.envs[e].env.Some? && Quieted(s, r, e, broke)
    ensures Faithful(r) && HoldersDistinct(r)
  {
    StillDistinct(s, r);
    SoleEnv(s, e);
    forall t | t in r.txns ensures TxnNative(r, t) { assert TxnNative(s, t); }
    forall d | d in r.envs ensures EnvNative(r, d) { assert EnvNative(s, d); }
  }

  lemma QuietAccounted(s: Proc, r: Proc, e: nat, broke: bool)
    requires Accounted(s) && Faithful(s)
    requires e in s.envs && s.envs[e].env.Some? && !s.envs[e].poisoned && Quieted(s, r, e, broke)
    ensures Accounted(r)
  {
    assert EnvNative(s, e);
    forall n | n in r.ledger.envs ensures EnvAccounted(r, n) {
      assert EnvAccounted(s, n);
      if HoldsEnv(s, n) {
        var d :| d in s.envs && s.envs[d].env == Some(n);
        assert r.envs[d].env == Some(n);
      }
    }
    forall n | n in r.ledger.txns ensures TxnAccounted(r, n) {
      assert TxnAccounted(s, n);
      assert r.txns == s.txns;
    }
  }

  /** The registry only depends on the keys and pids of the handles in it. */
  lemma SameRegistry(s: Proc, r: Proc)
    requires Registered(s) && r.openEnvs == s.openEnvs
    requires forall e :: e in s.openEnvs ==>
               e in r.envs && r.envs[e].key == s.envs[e].key && r.envs[e].pid == s.envs[e].pid
    ensures Registered(r)
  {
    forall d, e | d in r.openEnvs && e in r.openEnvs && d != e
      ensures !SameOpen(r, d, e)
    {
      assert !SameOpen(s, d, e);
    }
  }

  lemma KeepQuiet(s: Proc, r: Proc, e: nat, broke: bool)
    requires Inv(s) && e in s.envs && UsableHandle(s, s.envs[e])
    requires Quieted(s, r, e, broke)
    ensures Inv(r)
  {
    QuietLinked(s, r, e, broke);
    QuietFaithful(s, r, e, broke);
    QuietAccounted(s, r, e, broke);
    SameRegistry(s, r);
  }

  // -------------------------------------------------------------------------
  // Ending a transaction
  // -------------------------------------------------------------------------

  /** `r` is `s` with transaction `t` unlinked; the ledger and the abandoned list are left open. */
  predicate Unlinked(s: Proc, r: Proc, t: nat)
    requires t in s.txns && s.txns[t].owner.Some? && s.txns[t].owner.value in s.envs
  {
    var h := s.txns[t];
    var e := h.owner.value;
    && r == s.(txns := r.txns, envs := r.envs, ledger := r.ledger, abandoned := r.abandoned)
    && r.envs == s.envs[e := s.envs[e].(live := [])]
    && t in r.txns && !r.txns[t].state.Active? && r.txns[t].pid == h.pid
    && r.txns == s.txns[t := h.(txn := None, owner := None, state := r.txns[t].state)]
  }

  lemma UnlinkedLinked(s: Proc, r: Proc, t: nat)
    requires Linked(s) && t in s.txns && s.txns[t].txn.Some?
    requires TxnLinked(s, t) && Unlinked(s, r, t)
    ensures Linked(r)
  {}

  /** At most transaction `n` has ended between the two ledgers; data may have been published. */
  predicate LedgerEnds(l: Ledger, r: Ledger, n: nat, ended: bool)
    requires n in l.txns
  {
    && r.envs.Keys == l.envs.Keys
    && (forall m :: m in l.envs ==>
          r.envs[m].pid == l.envs[m].pid && r.envs[m].status == l.envs[m].status)
    && r.txns == l.txns[n := l.txns[n].(ended := l.txns[n].ended || ended)]
    && r.faulted == l.faulted
  }

  lemma UnlinkedFaithful(s: Proc, r: Proc, t: nat, ended: bool)
    requires Faithful(s) && HoldersDistinct(s) && t in s.txns && s.txns[t].txn.Some?
    requires TxnLinked(s, t) && TxnNative(s, t) && Unlinked(s, r, t)
    requires LedgerEnds(s.ledger, r.ledger, s.txns[t].txn.value, ended)
    ensures Faithful(r) && HoldersDistinct(r)
  {
    StillDistinct(s, r);
    SoleTxn(s, t);
    forall u | u in r.txns ensures TxnNative(r, u) { assert TxnNative(s, u); }
    forall d | d in r.envs ensures EnvNative(r, d) { assert EnvNative(s, d); }
  }

  lemma SameEnvHolders(s: Proc, r: Proc)
    requires r.envs.Keys == s.envs.Keys && forall e :: e in s.envs ==> r.envs[e].env == s.envs[e].env
    ensures forall n: nat :: HoldsEnv(s, n) <==> HoldsEnv(r, n)
  {}

  /** Letting go of `t` changes who is held by exactly its native transaction. */
  lemma TxnReleased(s: Proc, r: Proc, t: nat)
    requires HoldersDistinct(s) && t in s.txns && s.txns[t].txn.Some?
    requires r.txns.Keys == s.txns.Keys && r.txns[t].txn == None
    requires forall u :: u in s.txns && u != t ==> r.txns[u].txn == s.txns[u].txn
    ensures !HoldsTxn(r, s.txns[t].txn.value)
    ensures forall n: nat :: n != s.txns[t].txn.value ==> (HoldsTxn(s, n) <==> HoldsTxn(r, n))
  {
    SoleTxn(s, t);
    forall n: nat | n != s.txns[t].txn.value ensures HoldsTxn(s, n) <==> HoldsTxn(r, n) {
      if HoldsTxn(s, n) {
        var u :| u in s.txns && s.txns[u].txn == Some(n);
        assert r.txns[u].txn == Some(n);
      }
    }
  }

  /** Either libmdbx ended the transaction, or its pointer was put in the abandoned list because
      its environment could not be used. */
  lemma UnlinkedAccounted(s: Proc, r: Proc, t: nat, ended: bool)
    requires Accounted(s) && HoldersDistinct(s) && t in s.txns && s.txns[t].txn.Some?
    requires TxnLinked(s, t) && TxnNative(s, t) && EnvNative(s, s.txns[t].owner.value)
    requires Unlinked(s, r, t)
    requires LedgerEnds(s.ledger, r.ledger, s.txns[t].txn.value, ended)
    requires r.abandoned ==
             if ended then s.abandoned else s.abandoned + [TxnPointer(s.txns[t].txn.value)]
    requires ended || !UsableHandle(s, s.envs[s.txns[t].owner.value])
    ensures Accounted(r)
  {
    var m := s.txns[t].txn.value;
    assert TxnAccounted(s, m);
    assert HoldsTxn(s, m);
    SameEnvHolders(s, r);
    forall n | n in r.ledger.envs ensures EnvAccounted(r, n) { assert EnvAccounted(s, n); }
    UnlinkedTxnsAccounted(s, r, t, ended);
  }

  lemma UnlinkedTxnsAccounted(s: Proc, r: Proc, t: nat, ended: bool)
    requires TxnsAccounted(s) && HoldersDistinct(s) && t in s.txns && s.txns[t].txn.Some?
    requires TxnLinked(s, t) && TxnNative(s, t) && EnvNative(s, s.txns[t].owner.value)
    requires Unlinked(s, r, t)
    requires LedgerEnds(s.ledger, r.ledger, s.txns[t].txn.value, ended)
    requires r.abandoned ==
             if ended then s.abandoned else s.abandoned + [TxnPointer(s.txns[t].txn.value)]
    requires ended || !UsableHandle(s, s.envs[s.txns[t].owner.value])
    ensures TxnsAccounted(r)
  {
    var m := s.txns[t].txn.value;
    TxnReleased(s, r, t);
    assert HoldsTxn(s, m);
    forall n | n in r.ledger.txns ensures TxnAccounted(r, n) {
      assert TxnAccounted(s, n);
      assert multiset(r.abandoned)[TxnPointer(n)]
          == multiset(s.abandoned)[TxnPointer(n)] + if n == m && !ended then 1 else 0;
      assert EnvOk(r.ledger, r.pid, s.ledger.txns[n].env)
        <==> EnvOk(s.ledger, s.pid, s.ledger.txns[n].env);
    }
  }

  lemma UnlinkedNumbered(s: Proc, r: Proc, t: nat, ended: bool)
    requires Numbered(s) && t in s.txns && s.txns[t].txn.Some?
    requires TxnLinked(s, t) && TxnNative(s, t) && Unlinked(s, r, t)
    requires LedgerEnds(s.ledger, r.ledger, s.txns[t].txn.value, ended)
    requires r.abandoned ==
             if ended then s.abandoned else s.abandoned + [TxnPointer(s.txns[t].txn.value)]
    ensures Numbered(r)
  {}

  lemma UnlinkedRegistered(s: Proc, r: Proc, t: nat)
    requires Registered(s) && t in s.txns && TxnLinked(s, t) && s.txns[t].txn.Some?
    requires Unlinked(s, r, t)
    ensures Registered(r)
  {
    SameRegistry(s, r);
  }

  lemma KeepUnlinked(s: Proc, r: Proc, t: nat, ended: bool)
    requires Inv(s) && t in s.txns && s.txns[t].txn.Some?
    requires TxnLinked(s, t) && Unlinked(s, r, t)
    requires s.txns[t].txn.value in s.ledger.txns
             && LedgerEnds(s.ledger, r.ledger, s.txns[t].txn.value, ended)
    requires r.abandoned ==
             if ended then s.abandoned else s.abandoned + [TxnPointer(s.txns[t].txn.value)]
    requires ended || !UsableHandle(s, s.envs[s.txns[t].owner.value])
    ensures Inv(r)
  {
    assert TxnNative(s, t) && EnvNative(s, s.txns[t].owner.value);
    UnlinkedLinked(s, r, t);
    UnlinkedFaithful(s, r, t, ended);
    UnlinkedAccounted(s, r, t, ended);
    UnlinkedNumbered(s, r, t, ended);
    UnlinkedRegistered(s, r, t);
  }

  // -------------------------------------------------------------------------
  // Beginning a transaction
  // -------------------------------------------------------------------------

  /** `r` is `s` with native transaction `n`, just begun on `e`, held by the new handle `t`. */
  predicate Began(s: Proc, r: Proc, e: nat, t: nat, n: nat)
    requires e in s.envs && s.envs[e].env.Some?
  {
    && r == s.(txns := r.txns, envs := r.envs, ledger := r.ledger)
    && r.envs == s.envs[e := s.envs[e].(live := [t])]
    && t in r.txns && n in r.ledger.txns
    && r.txns == s.txns[t := TxnHandle(Some(n), Some(e), Active, r.ledger.txns[n].write, false, s.pid)]
    && r.ledger.envs == s.ledger.envs && r.ledger.faulted == s.ledger.faulted
    && r.ledger.txns == s.ledger.txns[n := r.ledger.txns[n]]
    && r.ledger.txns[n].env == s.envs[e].env.value && !r.ledger.txns[n].ended
  }

  lemma BeganLinked(s: Proc, r: Proc, e: nat, t: nat, n: nat)
    requires Linked(s) && e in s.envs && UsableHandle(s, s.envs[e]) && s.envs[e].live == []
    requires t !in s.txns && Began(s, r, e, t, n)
    ensures Linked(r)
  {}

  lemma BeganFaithful(s: Proc, r: Proc, e: nat, t: nat, n: nat)
    requires Faithful(s) && HoldersDistinct(s)
    requires e in s.envs && s.envs[e].env.Some? && t !in s.txns && n !in s.ledger.txns
    requires Began(s, r, e, t, n)
    ensures Faithful(r) && HoldersDistinct(r)
  {
    forall u | u in r.txns ensures TxnNative(r, u) {
      if u != t { assert TxnNative(s, u); }
    }
    forall d | d in r.envs ensures EnvNative(r, d) { assert EnvNative(s, d); }
    forall u | u in s.txns ensures s.txns[u].txn != Some(n) { assert TxnNative(s, u); }
    forall c, d | c in r.envs && d in r.envs && c != d ensures !SameEnv(r, c, d) {
      assert !SameEnv(s, c, d);
    }
    forall u, v | u in r.txns && v in r.txns && u != v ensures !SameTxn(r, u, v) {
      if u != t && v != t { assert !SameTxn(s, u, v); }
    }
  }

  lemma BeganAccounted(s: Proc, r: Proc, e: nat, t: nat, n: nat)
    requires Accounted(s) && Numbered(s)
    requires e in s.envs && s.envs[e].env.Some? && EnvNative(s, e)
    requires t !in s.txns && n !in s.ledger.txns && Began(s, r, e, t, n)
    ensures Accounted(r)
  {
    SameEnvHolders(s, r);
    forall m | m in r.ledger.envs ensures EnvAccounted(r, m) { assert EnvAccounted(s, m); }
    assert r.txns[t].txn == Some(n);
    assert TxnPointer(n) !in s.abandoned;
    forall m | m in r.ledger.txns ensures TxnAccounted(r, m) {
      if m != n {
        assert TxnAccounted(s, m);
        if HoldsTxn(s, m) {
          var u :| u in s.txns && s.txns[u].txn == Some(m);
          assert r.txns[u].txn == Some(m);
        }
      }
    }
  }

  lemma KeepBegan(s: Proc, r: Proc, e: nat, t: nat, n: nat)
    requires Inv(s) && e in s.envs && UsableHandle(s, s.envs[e]) && s.envs[e].live == []
    requires t !in s.txns && n !in s.ledger.txns && t < s.unused && n < s.unused
    requires Began(s, r, e, t, n)
    ensures Inv(r)
  {
    assert EnvNative(s, e);
    BeganLinked(s, r, e, t, n);
    BeganFaithful(s, r, e, t, n);
    BeganAccounted(s, r, e, t, n);
    SameRegistry(s, r);
  }

  // -------------------------------------------------------------------------
  // Letting go of an environment
  // -------------------------------------------------------------------------

  /** `r` is `s` with the environment of `e` dropped and out of the registry. */
  predicate Dropped(s: Proc, r: Proc, e: nat)
    requires e in s.envs && s.envs[e].env.Some?
  {
    && r == s.(envs := r.envs, openEnvs := r.openEnvs, ledger := r.ledger, abandoned := r.abandoned)
    && e in r.envs
    && r.envs == s.envs[e := s.envs[e].(env := None, poisoned := r.envs[e].poisoned)]
    && r.openEnvs == Without(s.openEnvs, e)
  }

  lemma {:induction false} WithoutOrdered(s: seq<nat>, x: nat)
    requires forall i, j :: 0 <= i < j < |s| ==> s[i] != s[j]
    ensures forall i, j :: 0 <= i < j < |Without(s, x)| ==> Without(s, x)[i] != Without(s, x)[j]
  {
    if s != [] {
      assert s == [s[0]] + s[1..];
      WithoutOrdered(s[1..], x);
      var rest := Without(s[1..], x);
      assert s[0] !in s[1..];
      assert forall i :: 0 <= i < |rest| ==> rest[i] in rest;
    }
  }

  lemma DroppedRegistered(s: Proc, r: Proc, e: nat)
    requires Registered(s) && e in s.envs && s.envs[e].env.Some? && Dropped(s, r, e)
    ensures Registered(r)
  {
    WithoutOrdered(s.openEnvs, e);
    forall c, d | c in r.openEnvs && d in r.openEnvs && c != d ensures !SameOpen(r, c, d) {
      assert !SameOpen(s, c, d);
    }
  }

  lemma DroppedLinked(s: Proc, r: Proc, e: nat)
    requires Linked(s) && e in s.envs && s.envs[e].env.Some? && s.envs[e].live == []
    requires Dropped(s, r, e)
    ensures Linked(r)
  {}

  /** The ledger is as it was, or environment `n` ended or was lost. */
  predicate LedgerCloses(l: Ledger, r: Ledger, n: nat, closed: bool)
    requires n in l.envs
  {
    && n in r.envs && r.envs[n].pid == l.envs[n].pid
    && r.envs == l.envs[n := r.envs[n]]
    && (if closed then r.envs[n].status.Closed? || r.envs[n].status.Lost?
        else r.envs[n] == l.envs[n])
    && r.txns == l.txns && r.faulted == l.faulted
  }

  lemma DroppedFaithful(s: Proc, r: Proc, e: nat, closed: bool)
    requires Linked(s) && Faithful(s) && HoldersDistinct(s)
    requires e in s.envs && s.envs[e].env.Some? && s.envs[e].live == []
    requires EnvNative(s, e) && LedgerCloses(s.ledger, r.ledger, s.envs[e].env.value, closed)
    requires Dropped(s, r, e)
    ensures Faithful(r) && HoldersDistinct(r)
  {
    StillDistinct(s, r);
    SoleEnv(s, e);
    forall u | u in r.txns ensures TxnNative(r, u) { assert TxnNative(s, u) && TxnLinked(s, u); }
    forall d | d in r.envs ensures EnvNative(r, d) { assert EnvNative(s, d); }
  }

  lemma EnvReleased(s: Proc, r: Proc, e: nat)
    requires HoldersDistinct(s) && e in s.envs && s.envs[e].env.Some?
    requires r.envs.Keys == s.envs.Keys && r.envs[e].env == None
    requires forall d :: d in s.envs && d != e ==> r.envs[d].env == s.envs[d].env
    ensures !HoldsEnv(r, s.envs[e].env.value)
    ensures forall n: nat :: n != s.envs[e].env.value ==> (HoldsEnv(s, n) <==> HoldsEnv(r, n))
  {
    SoleEnv(s, e);
    forall n: nat | n != s.envs[e].env.value ensures HoldsEnv(s, n) <==> HoldsEnv(r, n) {
      if HoldsEnv(s, n) {
        var d :| d in s.envs && s.envs[d].env == Some(n);
        assert r.envs[d].env == Some(n);
      }
    }
  }

  /** The abandoned list after environment `n` was given up once, and list starts with it. */
  ghost predicate GaveUpEnv(list: seq<Pointer>, r: seq<Pointer>, n: nat) {
    forall p: Pointer :: !p.RootPointer? ==>
      multiset(r)[p] == multiset(list)[p] + if p == EnvPointer(n) then 1 else 0
  }

  lemma AbandonEnvCounts(list: seq<Pointer>, h: EnvHandle)
    requires h.env.Some?
    ensures GaveUpEnv(list, AbandonEnv(list, h), h.env.value)
  {}

  lemma DroppedEnvsAccounted(s: Proc, r: Proc, e: nat, closed: bool)
    requires EnvsAccounted(s) && HoldersDistinct(s)
    requires e in s.envs && s.envs[e].env.Some? && EnvNative(s, e)
    requires LedgerCloses(s.ledger, r.ledger, s.envs[e].env.value, closed)
    requires Dropped(s, r, e)
    requires closed ==> r.abandoned == s.abandoned
    requires !closed ==> GaveUpEnv(s.abandoned, r.abandoned, s.envs[e].env.value)
    requires closed || !UsableHandle(s, s.envs[e])
    ensures EnvsAccounted(r)
  {
    var m := s.envs[e].env.value;
    EnvReleased(s, r, e);
    assert HoldsEnv(s, m);
    forall n | n in r.ledger.envs ensures EnvAccounted(r, n) { assert EnvAccounted(s, n); }
  }

  lemma DroppedTxnsAccounted(s: Proc, r: Proc, e: nat, closed: bool)
    requires TxnsAccounted(s)
    requires e in s.envs && s.envs[e].env.Some? && EnvNative(s, e)
    requires LedgerCloses(s.ledger, r.ledger, s.envs[e].env.value, closed)
    requires Dropped(s, r, e)
    requires closed ==> r.abandoned == s.abandoned
    requires !closed ==> GaveUpEnv(s.abandoned, r.abandoned, s.envs[e].env.value)
    ensures TxnsAccounted(r)
  {}

  lemma DroppedNumbered(s: Proc, r: Proc, e: nat, closed: bool)
    requires Numbered(s) && e in s.envs && s.envs[e].env.Some?
    requires s.envs[e].env.value in s.ledger.envs
    requires LedgerCloses(s.ledger, r.ledger, s.envs[e].env.value, closed)
    requires Dropped(s, r, e)
    requires closed ==> r.abandoned == s.abandoned
    requires !closed ==> GaveUpEnv(s.abandoned, r.abandoned, s.envs[e].env.value)
    ensures Numbered(r)
  {
    forall p | p in r.abandoned && !p.RootPointer? && p != EnvPointer(s.envs[e].env.value)
      ensures p in s.abandoned
    {
      assert multiset(r.abandoned)[p] > 0;
      assert multiset(s.abandoned)[p] > 0;
    }
  }

  lemma KeepDropped(s: Proc, r: Proc, e: nat, closed: bool)
    requires Inv(s) && e in s.envs && s.envs[e].env.Some? && s.envs[e].live == []
    requires s.envs[e].env.value in s.ledger.envs
    requires LedgerCloses(s.ledger, r.ledger, s.envs[e].env.value, closed)
    requires Dropped(s, r, e)
    requires closed ==> r.abandoned == s.abandoned
    requires !closed ==> GaveUpEnv(s.abandoned, r.abandoned, s.envs[e].env.value)
    requires closed || !UsableHandle(s, s.envs[e])
    ensures Inv(r)
  {
    assert EnvNative(s, e);
    DroppedRegistered(s, r, e);
    DroppedNumbered(s, r, e, closed);
    DroppedLinked(s, r, e);
    DroppedFaithful(s, r, e, closed);
    DroppedEnvsAccounted(s, r, e, closed);
    DroppedTxnsAccounted(s, r, e, closed);
  }

  /** Nothing is left running on an environment no handle has a transaction on. */
  lemma IdleWhenUnlinked(s: Proc, e: nat)
    requires Inv(s) && e in s.envs && UsableHandle(s, s.envs[e]) && s.envs[e].live == []
    ensures EnvOk(s.ledger, s.pid, s.envs[e].env.value)
    ensures Idle(s.ledger, s.envs[e].env.value)
  {
    SoleEnv(s, e);
    var m := s.envs[e].env.value;
    assert EnvNative(s, e);
    forall t | t in s.txns && s.txns[t].txn.Some? && s.txns[t].txn.value in s.ledger.txns
      ensures s.ledger.txns[s.txns[t].txn.value].env != m
    {
      assert TxnLinked(s, t) && TxnNative(s, t);
    }
    forall n | n in s.ledger.txns && s.ledger.txns[n].env == m ensures s.ledger.txns[n].ended {
      assert TxnAccounted(s, n);
    }
  }

  // -------------------------------------------------------------------------
  // Handles that hold nothing
  // -------------------------------------------------------------------------

  lemma KeepDeleteTxn(s: Proc, t: nat)
    requires Inv(s) && t in s.txns && s.txns[t].txn.None?
    ensures Inv(DeleteTxn(s, t))
  {
    StillDistinct(s, DeleteTxn(s, t));
    var r := DeleteTxn(s, t);
    assert TxnLinked(s, t);
    forall u | u in r.txns ensures TxnLinked(r, u) && TxnNative(r, u) {
      assert TxnLinked(s, u) && TxnNative(s, u);
    }
    forall d | d in r.envs ensures EnvLinked(r, d) && EnvNative(r, d) {
      assert EnvLinked(s, d) && EnvNative(s, d);
    }
    forall n: nat ensures HoldsTxn(s, n) <==> HoldsTxn(r, n) {
      if HoldsTxn(s, n) {
        var u :| u in s.txns && s.txns[u].txn == Some(n);
        assert r.txns[u].txn == Some(n);
      }
    }
    SameEnvHolders(s, r);
    forall n | n in r.ledger.envs ensures EnvAccounted(r, n) { assert EnvAccounted(s, n); }
    forall n | n in r.ledger.txns ensures TxnAccounted(r, n) { assert TxnAccounted(s, n); }
    SameRegistry(s, r);
  }

  lemma KeepDeleteEnv(s: Proc, e: nat)
    requires Inv(s) && e in s.envs && s.envs[e].env.None?
    ensures Inv(DeleteEnv(s, e))
  {
    StillDistinct(s, DeleteEnv(s, e));
    var r := DeleteEnv(s, e);
    assert EnvLinked(s, e);
    forall u | u in r.txns ensures TxnLinked(r, u) && TxnNative(r, u) {
      assert TxnLinked(s, u) && TxnNative(s, u);
    }
    forall d | d in r.envs ensures EnvLinked(r, d) && EnvNative(r, d) {
      assert EnvLinked(s, d) && EnvNative(s, d);
    }
    forall n: nat ensures HoldsEnv(s, n) <==> HoldsEnv(r, n) {
      if HoldsEnv(s, n) {
        var d :| d in s.envs && s.envs[d].env == Some(n);
        assert r.envs[d].env == Some(n);
      }
    }
    forall n | n in r.ledger.envs ensures EnvAccounted(r, n) { assert EnvAccounted(s, n); }
    forall n | n in r.ledger.txns ensures TxnAccounted(r, n) {
      assert TxnAccounted(s, n);
      assert HoldsTxn(s, n) <==> HoldsTxn(r, n);
    }
    SameRegistry(s, r);
  }
}
