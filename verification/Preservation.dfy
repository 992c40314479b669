/** Every step of every entry point and finalizer keeps the invariant. */
module Preservation {
  import opened Bytes
  import opened ReferenceModel
  import opened Native
  import opened Handles
  import opened Invariant

  // -------------------------------------------------------------------------
  // Small changes
  // -------------------------------------------------------------------------

  lemma KeepUnused(s: Proc, unused: nat)
    requires Inv(s) && s.unused <= unused
    ensures Inv(s.(unused := unused))
  {
    KeepBookkeeping(s, s.(unused := unused));
  }

  /** Changes nothing the invariant looks at: trace, peeks, heap roots and spare numbers. */
  lemma KeepBookkeeping(s: Proc, r: Proc)
    requires Inv(s)
    requires r.pid == s.pid && r.past == s.past && r.txns == s.txns && r.openEnvs == s.openEnvs
    requires r.abandoned == s.abandoned && s.unused <= r.unused
    requires r.envs.Keys == s.envs.Keys
    requires forall e :: e in s.envs ==> r.envs[e] == s.envs[e].(roots := r.envs[e].roots)
    requires r.ledger.envs == s.ledger.envs && r.ledger.txns == s.ledger.txns && !r.ledger.faulted
    ensures Inv(r)
  {
    StillDistinct(s, r);
    forall t | t in r.txns ensures TxnLinked(r, t) && TxnNative(r, t) {
      assert TxnLinked(s, t) && TxnNative(s, t);
    }
    forall e | e in r.envs ensures EnvLinked(r, e) && EnvNative(r, e) {
      assert EnvLinked(s, e) && EnvNative(s, e);
    }
    SameRegistry(s, r);
    SameEnvHolders(s, r);
    forall n | n in r.ledger.envs ensures EnvAccounted(r, n) { assert EnvAccounted(s, n); }
    forall n | n in r.ledger.txns ensures TxnAccounted(r, n) {
      assert TxnAccounted(s, n);
      assert HoldsTxn(s, n) <==> HoldsTxn(r, n);
    }
  }

  lemma KeepRoots(w: World, s: Proc, e: nat)
    requires Inv(s)
    ensures Inv(RecordHeapRoots(w, s, e))
  {
    if e in s.envs && UsableHandle(s, s.envs[e]) {
      assert EnvNative(s, e);
      KeepBookkeeping(s, RecordHeapRoots(w, s, e));
    }
  }

  lemma MarkLinked(s: Proc, t: nat)
    requires Linked(s) && Faithful(s) && HoldersDistinct(s) && t in s.txns
    requires s.txns[t].owner.Some? ==>
               s.txns[t].owner.value in s.envs && s.envs[s.txns[t].owner.value].poisoned
    ensures var r := SetTxn(s, t, s.txns[t].(poisoned := true));
            Linked(r) && Faithful(r) && HoldersDistinct(r)
  {
    var r := SetTxn(s, t, s.txns[t].(poisoned := true));
    StillDistinct(s, r);
    forall u | u in r.txns ensures TxnLinked(r, u) && TxnNative(r, u) {
      assert TxnLinked(s, u) && TxnNative(s, u);
    }
    forall e | e in r.envs ensures EnvLinked(r, e) && EnvNative(r, e) {
      assert EnvLinked(s, e) && EnvNative(s, e);
    }
  }

  lemma MarkAccounted(s: Proc, t: nat)
    requires Accounted(s) && t in s.txns
    ensures Accounted(SetTxn(s, t, s.txns[t].(poisoned := true)))
  {
    var r := SetTxn(s, t, s.txns[t].(poisoned := true));
    SameEnvHolders(s, r);
    forall n | n in r.ledger.envs ensures EnvAccounted(r, n) { assert EnvAccounted(s, n); }
    forall n: nat ensures HoldsTxn(s, n) <==> HoldsTxn(r, n) {
      if HoldsTxn(s, n) {
        var u :| u in s.txns && s.txns[u].txn == Some(n);
        assert r.txns[u].txn == Some(n);
      }
    }
    forall n | n in r.ledger.txns ensures TxnAccounted(r, n) { assert TxnAccounted(s, n); }
  }

  /** A transaction may be marked poisoned once its environment is. */
  lemma KeepPoisonMark(s: Proc, t: nat)
    requires Inv(s) && t in s.txns
    requires s.txns[t].owner.Some? ==>
               s.txns[t].owner.value in s.envs && s.envs[s.txns[t].owner.value].poisoned
    ensures Inv(SetTxn(s, t, s.txns[t].(poisoned := true)))
  {
    MarkLinked(s, t);
    MarkAccounted(s, t);
    SameRegistry(s, SetTxn(s, t, s.txns[t].(poisoned := true)));
  }

  lemma KeepFork(s: Proc, child: nat)
    requires Inv(s)
    ensures Inv(ForkStep(s, child))
  {
    if child != s.pid && child !in s.past {
      var r := ForkStep(s, child);
      StillDistinct(s, r);
      forall t | t in r.txns ensures TxnLinked(r, t) && TxnNative(r, t) {
        assert TxnLinked(s, t) && TxnNative(s, t);
      }
      forall e | e in r.envs ensures EnvLinked(r, e) && EnvNative(r, e) {
        assert EnvLinked(s, e) && EnvNative(s, e);
      }
      SameRegistry(s, r);
      SameEnvHolders(s, r);
      forall n | n in r.ledger.envs ensures EnvAccounted(r, n) { assert EnvAccounted(s, n); }
      forall n | n in r.ledger.txns ensures TxnAccounted(r, n) {
        assert TxnAccounted(s, n) && EnvAccounted(s, s.ledger.txns[n].env);
        assert HoldsTxn(s, n) <==> HoldsTxn(r, n);
      }
    }
  }

  // -------------------------------------------------------------------------
  // Guarded calls
  // -------------------------------------------------------------------------

  /** What txn_from_sexp() establishes. */
  lemma AcceptedTxn(s: Proc, t: nat)
    requires Inv(s) && TxnRefusal(s, t).None?
    ensures t in s.txns && s.txns[t].txn.Some? && s.txns[t].owner.Some?
    ensures s.txns[t].owner.value in s.envs && UsableHandle(s, s.envs[s.txns[t].owner.value])
    ensures s.envs[s.txns[t].owner.value].live == [t]
    ensures TxnOk(s.ledger, s.pid, s.txns[t].txn.value)
    ensures Some(s.ledger.txns[s.txns[t].txn.value].env) == s.envs[s.txns[t].owner.value].env
    ensures TxnLinked(s, t) && TxnNative(s, t)
  {}

  lemma KeepEnvCall(w: World, s: Proc, e: nat, c: Call)
    requires Inv(s) && e in s.envs && UsableHandle(s, s.envs[e])
    requires !c.CreateEnv? && !c.CloseEnv? && Touches(s.ledger, c) == s.envs[e].env
    requires Allowed(s.ledger, s.pid, c)
    requires var o := Answer(w, s.ledger, c);
             || o.Panicked? || c.EnvCall? || c.TxnCall? || c.OpenEnv?
             || (c.BeginTxn? && o.rc != SUCCESS)
             || ((c.CommitTxn? || c.AbortTxn?) && o.rc == THREAD_MISMATCH)
    ensures Inv(GuardEnv(w, s, e, c).0)
  {
    QuietCall(w, s, e, c);
    KeepQuiet(s, GuardEnv(w, s, e, c).0, e, Answer(w, s.ledger, c).Panicked?);
  }

  lemma KeepTxnCall(w: World, s: Proc, t: nat, c: Call)
    requires Inv(s) && TxnRefusal(s, t).None?
    requires c.CommitTxn? || c.AbortTxn? || c.TxnCall?
    requires c.t == s.txns[t].txn.value
    requires var o := Answer(w, s.ledger, c);
             o.Panicked? || c.TxnCall? || o.rc == THREAD_MISMATCH
    ensures Inv(GuardTxn(w, s, t, c).0)
  {
    AcceptedTxn(s, t);
    var e := s.txns[t].owner.value;
    KeepEnvCall(w, s, e, c);
    var (r, o) := GuardEnv(w, s, e, c);
    if o.Panicked? {
      KeepPoisonMark(r, t);
      assert GuardTxn(w, s, t, c).0 == SetTxn(r, t, r.txns[t].(poisoned := true));
    }
  }

  // -------------------------------------------------------------------------
  // Ending transactions
  // -------------------------------------------------------------------------

  /** Recording the heap roots before or after unlinking makes no difference. */
  lemma MarkFinishedLate(w: World, s: Proc, t: nat, state: TxnState)
    requires t in s.txns && s.txns[t].owner.Some? && s.txns[t].owner.value in s.envs
    ensures MarkFinished(w, s, t, state) ==
            if s.txns[t].write then RecordHeapRoots(w, Unlink(s, t, state), s.txns[t].owner.value)
            else Unlink(s, t, state)
  {}

  lemma EndedShape(w: World, s: Proc, t: nat, c: Call, state: TxnState)
    requires t in s.txns && TxnLinked(s, t) && s.txns[t].txn.Some? && !state.Active?
    requires (c.CommitTxn? || c.AbortTxn?) && c.t == s.txns[t].txn.value && c.t in s.ledger.txns
    requires Allowed(s.ledger, s.pid, c)
    requires var o := Answer(w, s.ledger, c); o.Returned? && o.rc != THREAD_MISMATCH
    ensures var made := GuardTxn(w, s, t, c).0;
            var r := Unlink(made, t, state);
            && Unlinked(s, r, t) && LedgerEnds(s.ledger, r.ledger, c.t, true)
            && r.abandoned == s.abandoned
            && made == s.(ledger := r.ledger)
  {
    assert Without([t], t) == [];
  }

  lemma KeepEnded(w: World, s: Proc, t: nat, c: Call, state: TxnState)
    requires Inv(s) && TxnRefusal(s, t).None? && !state.Active?
    requires (c.CommitTxn? || c.AbortTxn?) && c.t == s.txns[t].txn.value
    requires var o := Answer(w, s.ledger, c); o.Returned? && o.rc != THREAD_MISMATCH
    ensures Inv(Unlink(GuardTxn(w, s, t, c).0, t, state))
    ensures Inv(MarkFinished(w, GuardTxn(w, s, t, c).0, t, state))
  {
    AcceptedTxn(s, t);
    EndedShape(w, s, t, c, state);
    var made := GuardTxn(w, s, t, c).0;
    var r := Unlink(made, t, state);
    KeepUnlinked(s, r, t, true);
    MarkFinishedLate(w, made, t, state);
    KeepRoots(w, r, s.txns[t].owner.value);
  }

  lemma GivenUpShape(s: Proc, t: nat, state: TxnState)
    requires t in s.txns && TxnLinked(s, t) && s.txns[t].txn.Some? && !state.Active?
    requires s.txns[t].txn.value in s.ledger.txns
    ensures var n := s.txns[t].txn.value;
            var r := Unlink(s.(abandoned := AbandonTxn(s.abandoned, Some(n))), t, state);
            && Unlinked(s, r, t) && LedgerEnds(s.ledger, r.ledger, n, false)
            && r.abandoned == s.abandoned + [TxnPointer(n)]
  {
    assert Without([t], t) == [];
  }

  lemma KeepGivenUp(w: World, s: Proc, t: nat, state: TxnState)
    requires Inv(s) && t in s.txns && s.txns[t].txn.Some? && !state.Active?
    requires s.txns[t].owner.Some? && s.txns[t].owner.value in s.envs
             && !UsableHandle(s, s.envs[s.txns[t].owner.value])
    ensures var given := s.(abandoned := AbandonTxn(s.abandoned, s.txns[t].txn));
            Inv(Unlink(given, t, state)) && Inv(MarkFinished(w, given, t, state))
  {
    assert TxnLinked(s, t) && TxnNative(s, t);
    var given := s.(abandoned := AbandonTxn(s.abandoned, s.txns[t].txn));
    var r := Unlink(given, t, state);
    GivenUpShape(s, t, state);
    KeepUnlinked(s, r, t, false);
    MarkFinishedLate(w, given, t, state);
    KeepRoots(w, r, s.txns[t].owner.value);
  }

  // -------------------------------------------------------------------------
  // Steps
  // -------------------------------------------------------------------------

  /** The one transaction `e` may have, ended as the finalizers end it: by libmdbx while the
      environment may be used, and otherwise by giving its pointer up. */
  function Release(w: World, s: Proc, t: nat): Proc
    requires t in s.txns && s.txns[t].txn.Some? && s.txns[t].owner.Some?
    requires s.txns[t].owner.value in s.envs
  {
    EndOrAbandon(w, s, t, UsableHandle(s, s.envs[s.txns[t].owner.value]))
  }

  lemma KeepUsableRelease(w: World, s: Proc, t: nat)
    requires Inv(s) && OwningThread(w) && TxnRefusal(s, t).None?
    ensures Inv(Unlink(EndOrAbandon(w, s, t, true), t, Aborted))
    ensures Inv(MarkFinished(w, EndOrAbandon(w, s, t, true), t, Aborted))
  {
    var c := AbortTxn(s.txns[t].txn.value);
    if Answer(w, s.ledger, c).Returned? {
      KeepEnded(w, s, t, c, Aborted);
    } else {
      KeepBrokenRelease(w, s, t, c);
    }
  }

  lemma KeepBrokenRelease(w: World, s: Proc, t: nat, c: Call)
    requires Inv(s) && TxnRefusal(s, t).None? && c == AbortTxn(s.txns[t].txn.value)
    requires Answer(w, s.ledger, c).Panicked?
    ensures var given := GuardTxn(w, s, t, c).0;
            var r := given.(abandoned := AbandonTxn(given.abandoned, s.txns[t].txn));
            Inv(Unlink(r, t, Aborted)) && Inv(MarkFinished(w, r, t, Aborted))
  {
    AcceptedTxn(s, t);
    KeepTxnCall(w, s, t, c);
    KeepGivenUp(w, GuardTxn(w, s, t, c).0, t, Aborted);
  }

  lemma LinkedAccepted(s: Proc, t: nat)
    requires t in s.txns && TxnLinked(s, t) && s.txns[t].txn.Some?
    requires UsableHandle(s, s.envs[s.txns[t].owner.value])
    ensures TxnRefusal(s, t).None?
  {}

  lemma KeepRelease(w: World, s: Proc, t: nat)
    requires Inv(s) && OwningThread(w) && t in s.txns && s.txns[t].txn.Some?
    ensures s.txns[t].owner.Some? && s.txns[t].owner.value in s.envs
    ensures Inv(Unlink(Release(w, s, t), t, Aborted))
    ensures Inv(MarkFinished(w, Release(w, s, t), t, Aborted))
  {
    assert TxnLinked(s, t);
    if UsableHandle(s, s.envs[s.txns[t].owner.value]) {
      LinkedAccepted(s, t);
      KeepUsableRelease(w, s, t);
    } else {
      KeepGivenUp(w, s, t, Aborted);
    }
  }

  /** One registered transaction: the loop of detach_txns runs once. */
  lemma DetachSingle(w: World, s: Proc, e: nat, t: nat)
    requires e in s.envs && s.envs[e].live == [t] && t in s.txns && s.txns[t].txn.Some?
    requires s.txns[t].owner == Some(e) && (s.txns[t].poisoned ==> s.envs[e].poisoned)
    ensures DetachTxns(w, s, e) == Unlink(Release(w, s, t), t, Aborted)
  {
    var usable := UsableHandle(s, s.envs[e]);
    var one := DetachOne(w, s, t, usable);
    assert [t][1..] == [];
    assert DetachEach(w, s, [t], usable) == DetachEach(w, one, [], usable) == one;
    assert Without([t], t) == [];
    var r := Unlink(Release(w, s, t), t, Aborted);
    assert DetachTxns(w, s, e).txns == r.txns;
    assert DetachTxns(w, s, e).envs == r.envs;
  }

  lemma DetachNone(w: World, s: Proc, e: nat)
    requires e in s.envs && s.envs[e].live == []
    ensures DetachTxns(w, s, e) == s
  {}

  lemma DetachForm(w: World, s: Proc, e: nat)
    requires Inv(s) && e in s.envs
    ensures NoDangling(s)
    ensures s.envs[e].live == [] ==> DetachTxns(w, s, e) == s
    ensures s.envs[e].live != [] ==>
              var t := s.envs[e].live[0];
              && s.envs[e].live == [t]
              && t in s.txns && s.txns[t].txn.Some? && s.txns[t].owner == Some(e)
              && DetachTxns(w, s, e) == Unlink(Release(w, s, t), t, Aborted)
  {
    InvNoDangling(s);
    assert EnvLinked(s, e);
    if s.envs[e].live == [] {
      DetachNone(w, s, e);
    } else {
      var t := s.envs[e].live[0];
      assert TxnLinked(s, t);
      DetachSingle(w, s, e, t);
    }
  }

  lemma ReleaseKeepsEnv(w: World, s: Proc, e: nat, t: nat)
    requires e in s.envs && s.envs[e].live == [t]
    requires t in s.txns && s.txns[t].txn.Some? && s.txns[t].owner == Some(e)
    ensures var r := Unlink(Release(w, s, t), t, Aborted);
            e in r.envs && r.envs[e].live == [] && r.envs[e].env == s.envs[e].env
            && r.envs[e].pid == s.envs[e].pid
  {
    assert Without([t], t) == [];
  }

  lemma KeepDetach(w: World, s: Proc, e: nat)
    requires Inv(s) && OwningThread(w) && e in s.envs
    ensures NoDangling(s)
    ensures Inv(DetachTxns(w, s, e))
    ensures var r := DetachTxns(w, s, e);
            e in r.envs && r.envs[e].live == [] && r.envs[e].env == s.envs[e].env
  {
    DetachForm(w, s, e);
    if s.envs[e].live != [] {
      var t := s.envs[e].live[0];
      KeepRelease(w, s, t);
      ReleaseKeepsEnv(w, s, e, t);
    }
  }

  /** Closing drops the environment whichever way it goes. */
  lemma CloseDrops(w: World, s: Proc, e: nat, propagate: bool)
    requires e in s.envs && s.envs[e].env.Some? && s.envs[e].env.value in s.ledger.envs
    requires UsableHandle(s, s.envs[e]) ==> Allowed(s.ledger, s.pid, CloseEnv(s.envs[e].env.value))
    ensures var r := CloseHandle(w, s, e, propagate).proc;
            var closed := UsableHandle(s, s.envs[e]);
            && Dropped(s, r, e)
            && LedgerCloses(s.ledger, r.ledger, s.envs[e].env.value, closed)
            && r.abandoned == if closed then s.abandoned else AbandonEnv(s.abandoned, s.envs[e])
  {}

  lemma KeepClose(w: World, s: Proc, e: nat, propagate: bool)
    requires Inv(s) && e in s.envs && s.envs[e].live == []
    ensures Inv(CloseHandle(w, s, e, propagate).proc)
    ensures e in CloseHandle(w, s, e, propagate).proc.envs
    ensures CloseHandle(w, s, e, propagate).proc.envs[e].env.None?
  {
    if s.envs[e].env.Some? {
      assert EnvNative(s, e);
      if UsableHandle(s, s.envs[e]) { IdleWhenUnlinked(s, e); }
      CloseDrops(w, s, e, propagate);
      AbandonEnvCounts(s.abandoned, s.envs[e]);
      KeepDropped(s, CloseHandle(w, s, e, propagate).proc, e, UsableHandle(s, s.envs[e]));
    }
  }

  lemma CloseStepInv(w: World, s: Proc, e: nat)
    requires Inv(s) && OwningThread(w) && NoDangling(s)
    ensures Inv(CloseStep(w, s, e).proc)
  {
    if e in s.envs {
      if s.envs[e].poisoned {
        KeepDetach(w, s, e);
        KeepClose(w, DetachTxns(w, s, e), e, true);
      } else if s.envs[e].live == [] {
        KeepClose(w, s, e, true);
      }
    }
  }

  lemma FinalizeEnvInv(w: World, s: Proc, e: nat)
    requires Inv(s) && OwningThread(w) && NoDangling(s)
    ensures Inv(FinalizeEnvStep(w, s, e))
  {
    if e in s.envs {
      KeepDetach(w, s, e);
      KeepClose(w, DetachTxns(w, s, e), e, false);
      KeepDeleteEnv(CloseHandle(w, DetachTxns(w, s, e), e, false).proc, e);
    }
  }

  lemma FinalizeLinked(w: World, s: Proc, t: nat)
    requires t in s.txns && TxnLinked(s, t)
    ensures s.txns[t].txn.None? ==> FinalizeTxnStep(w, s, t) == DeleteTxn(s, t)
    ensures s.txns[t].txn.Some? ==>
              FinalizeTxnStep(w, s, t) == DeleteTxn(MarkFinished(w, Release(w, s, t), t, Aborted), t)
  {}

  lemma FinalizeTxnForm(w: World, s: Proc, t: nat)
    requires Inv(s) && t in s.txns
    ensures s.txns[t].txn.None? ==> FinalizeTxnStep(w, s, t) == DeleteTxn(s, t)
    ensures s.txns[t].txn.Some? ==>
              && s.txns[t].owner.Some? && s.txns[t].owner.value in s.envs
              && FinalizeTxnStep(w, s, t)
                 == DeleteTxn(MarkFinished(w, Release(w, s, t), t, Aborted), t)
  {
    FinalizeLinked(w, s, t);
  }

  lemma FinalizeTxnInv(w: World, s: Proc, t: nat)
    requires Inv(s) && OwningThread(w)
    ensures Inv(FinalizeTxnStep(w, s, t))
  {
    if t in s.txns {
      FinalizeTxnForm(w, s, t);
      if s.txns[t].txn.None? {
        KeepDeleteTxn(s, t);
      } else {
        KeepReleased(w, s, t);
      }
    }
  }

  lemma MarkLetsGo(w: World, s: Proc, t: nat)
    requires t in s.txns
    ensures var r := MarkFinished(w, s, t, Aborted); t in r.txns && r.txns[t].txn.None?
  {}

  lemma KeepReleased(w: World, s: Proc, t: nat)
    requires Inv(s) && OwningThread(w) && t in s.txns && s.txns[t].txn.Some?
    ensures s.txns[t].owner.Some? && s.txns[t].owner.value in s.envs
    ensures Inv(DeleteTxn(MarkFinished(w, Release(w, s, t), t, Aborted), t))
  {
    KeepRelease(w, s, t);
    MarkLetsGo(w, Release(w, s, t), t);
    KeepDeleteTxn(MarkFinished(w, Release(w, s, t), t, Aborted), t);
  }

  lemma FinishInv(w: World, s: Proc, t: nat, commit: bool)
    requires Inv(s)
    ensures Inv(FinishStep(w, s, t, commit).proc)
  {
    if TxnRefusal(s, t).None? {
      AcceptedTxn(s, t);
      var n := s.txns[t].txn.value;
      var c := if commit then CommitTxn(n) else AbortTxn(n);
      var o := Answer(w, s.ledger, c);
      if o.Panicked? || o.rc == THREAD_MISMATCH {
        KeepTxnCall(w, s, t, c);
      } else {
        KeepEnded(w, s, t, c, if commit && o.rc == SUCCESS then Committed else Aborted);
      }
    }
  }

  lemma AbortInv(w: World, s: Proc, t: nat)
    requires Inv(s)
    ensures Inv(AbortStep(w, s, t).proc)
  {
    if t in s.txns && s.txns[t].txn.Some? {
      assert TxnLinked(s, t);
      FinishInv(w, s, t, false);
      if s.txns[t].pid == s.pid && s.envs[s.txns[t].owner.value].poisoned {
        KeepGivenUp(w, s, t, Aborted);
      }
      AbortForm(w, s, t);
    }
  }

  lemma AbortForm(w: World, s: Proc, t: nat)
    requires t in s.txns && TxnLinked(s, t) && s.txns[t].txn.Some?
    ensures AbortStep(w, s, t).proc ==
            if s.txns[t].pid == s.pid && s.envs[s.txns[t].owner.value].poisoned
            then MarkFinished(w, s.(abandoned := AbandonTxn(s.abandoned, s.txns[t].txn)), t, Aborted)
            else FinishStep(w, s, t, false).proc
  {}

  lemma OpsInv(w: World, s: Proc, t: nat, next: Store)
    requires Inv(s)
    ensures Inv(TxnStatStep(w, s, t).proc)
    ensures Inv(TxnOpStep(w, s, t, next).proc)
  {
    if TxnRefusal(s, t).None? {
      AcceptedTxn(s, t);
      var e := s.txns[t].owner.value;
      KeepEnvCall(w, s, e, EnvCall(s.envs[e].env.value, s.txns[t].txn));
      KeepTxnCall(w, s, t, TxnCall(s.txns[t].txn.value, next));
    }
  }

  lemma EnvOpInv(w: World, s: Proc, e: nat, inTxn: bool)
    requires Inv(s)
    ensures Inv(EnvOpStep(w, s, e, inTxn).proc)
  {
    if EnvRefusal(s, e).None? {
      assert EnvLinked(s, e) && EnvNative(s, e);
      var live := s.envs[e].live;
      if inTxn && live != [] {
        assert TxnLinked(s, live[0]) && TxnNative(s, live[0]);
      }
      var under := if inTxn then CurrentTxn(s, live) else None;
      KeepEnvCall(w, s, e, EnvCall(s.envs[e].env.value, under));
    }
  }

  /** What a begin amounts to, the temporary handle left out. */
  lemma BeginForm(w: World, s: Proc, e: nat, write: bool)
    requires EnvRefusal(s, e).None? && s.envs[e].live == []
    requires s.unused !in s.txns && s.unused + 1 !in s.ledger.txns
    requires s.envs[e].env.value in s.ledger.envs
    requires Allowed(s.ledger, s.pid, BeginTxn(s.envs[e].env.value, s.unused + 1, write))
    ensures var a := s.(unused := s.unused + 2);
            var c := BeginTxn(s.envs[e].env.value, s.unused + 1, write);
            var o := Answer(w, s.ledger, c);
            var r := BeginStep(w, s, e, write).proc;
            if o.Panicked? || o.rc != SUCCESS then r == GuardEnv(w, a, e, c).0
            else Began(a, r, e, s.unused, s.unused + 1)
  {
    var a := s.(unused := s.unused + 2);
    var c := BeginTxn(s.envs[e].env.value, s.unused + 1, write);
    var o := Answer(w, s.ledger, c);
    var r := BeginStep(w, s, e, write).proc;
    if o.Panicked? || o.rc != SUCCESS {
      assert r.txns == s.txns;
    } else {
      assert s.envs[e].live + [s.unused] == [s.unused];
    }
  }

  lemma BeginAllowed(s: Proc, e: nat, write: bool)
    requires Inv(s) && EnvRefusal(s, e).None? && s.envs[e].live == []
    ensures s.unused !in s.txns && s.unused + 1 !in s.ledger.txns
    ensures s.envs[e].env.value in s.ledger.envs
    ensures Allowed(s.ledger, s.pid, BeginTxn(s.envs[e].env.value, s.unused + 1, write))
  {
    IdleWhenUnlinked(s, e);
  }

  lemma KeepFailedBegin(w: World, s: Proc, e: nat, c: Call)
    requires Inv(s) && EnvRefusal(s, e).None?
    requires c.BeginTxn? && Some(c.e) == s.envs[e].env && Allowed(s.ledger, s.pid, c)
    requires Answer(w, s.ledger, c) != Returned(SUCCESS)
    ensures Inv(GuardEnv(w, s.(unused := s.unused + 2), e, c).0)
  {
    QuietCall(w, s, e, c);
    KeepQuiet(s, GuardEnv(w, s.(unused := s.unused + 2), e, c).0, e, Answer(w, s.ledger, c).Panicked?);
  }

  lemma KeepBegun(s: Proc, r: Proc, e: nat)
    requires Inv(s) && EnvRefusal(s, e).None? && s.envs[e].live == []
    requires Began(s.(unused := s.unused + 2), r, e, s.unused, s.unused + 1)
    ensures Inv(r)
  {
    KeepUnused(s, s.unused + 2);
    KeepBegan(s.(unused := s.unused + 2), r, e, s.unused, s.unused + 1);
  }

  lemma BeginInv(w: World, s: Proc, e: nat, write: bool)
    requires Inv(s)
    ensures Inv(BeginStep(w, s, e, write).proc)
  {
    if EnvRefusal(s, e).None? && s.envs[e].live == [] {
      BeginAllowed(s, e, write);
      BeginForm(w, s, e, write);
      var c := BeginTxn(s.envs[e].env.value, s.unused + 1, write);
      if Answer(w, s.ledger, c) != Returned(SUCCESS) {
        KeepFailedBegin(w, s, e, c);
      } else {
        KeepBegun(s, BeginStep(w, s, e, write).proc, e);
      }
    }
  }

  /** `s` with native environment `n`, just created, held by the new handle `e`, registered. */
  function Adopted(w: World, s: Proc, key: string): Proc {
    var e, n := s.unused, s.unused + 1;
    SetEnv(s, e, EnvHandle(Some(n), false, s.pid, key, [], NO_ROOTS))
    .(unused := s.unused + 2, openEnvs := s.openEnvs + [e],
      ledger := Make(w, s.ledger, s.pid, CreateEnv(n)))
  }

  lemma AdoptedRegistered(w: World, s: Proc, key: string)
    requires Registered(s) && s.unused !in s.envs && FindOpenEnv(s, key).None?
    ensures Registered(Adopted(w, s, key))
  {
    var r := Adopted(w, s, key);
    forall d, e | d in r.openEnvs && e in r.openEnvs && d != e ensures !SameOpen(r, d, e) {
      if d != s.unused && e != s.unused { assert !SameOpen(s, d, e); }
    }
  }

  lemma AdoptedLinked(w: World, s: Proc, key: string)
    requires Linked(s) && s.unused !in s.envs
    requires forall d :: d in s.openEnvs ==> d in s.envs
    ensures Linked(Adopted(w, s, key))
  {}

  lemma AdoptedFaithful(w: World, s: Proc, key: string)
    requires Faithful(s) && HoldersDistinct(s) && Numbered(s)
    requires Answer(w, s.ledger, CreateEnv(s.unused + 1)) == Returned(SUCCESS)
    ensures Faithful(Adopted(w, s, key)) && HoldersDistinct(Adopted(w, s, key))
  {
    var r := Adopted(w, s, key);
    forall t | t in r.txns ensures TxnNative(r, t) { assert TxnNative(s, t); }
    forall d | d in r.envs ensures EnvNative(r, d) {
      if d != s.unused { assert EnvNative(s, d); }
    }
    forall d | d in s.envs ensures s.envs[d].env != Some(s.unused + 1) { assert EnvNative(s, d); }
    forall c, d | c in r.envs && d in r.envs && c != d ensures !SameEnv(r, c, d) {
      if c != s.unused && d != s.unused { assert !SameEnv(s, c, d); }
    }
    forall u, v | u in r.txns && v in r.txns && u != v ensures !SameTxn(r, u, v) {
      assert !SameTxn(s, u, v);
    }
  }

  lemma AdoptedNumbered(w: World, s: Proc, key: string)
    requires Numbered(s)
    requires Answer(w, s.ledger, CreateEnv(s.unused + 1)) == Returned(SUCCESS)
    ensures Numbered(Adopted(w, s, key))
    ensures Adopted(w, s, key).ledger.faulted == s.ledger.faulted
  {}

  lemma KeepAdopted(w: World, s: Proc, key: string)
    requires Inv(s) && FindOpenEnv(s, key).None?
    requires Answer(w, s.ledger, CreateEnv(s.unused + 1)) == Returned(SUCCESS)
    ensures Inv(Adopted(w, s, key))
  {
    AdoptedRegistered(w, s, key);
    AdoptedLinked(w, s, key);
    AdoptedFaithful(w, s, key);
    AdoptedAccounted(w, s, key);
    AdoptedNumbered(w, s, key);
  }

  lemma AdoptedAccounted(w: World, s: Proc, key: string)
    requires Accounted(s) && Numbered(s)
    requires Answer(w, s.ledger, CreateEnv(s.unused + 1)) == Returned(SUCCESS)
    ensures Accounted(Adopted(w, s, key))
  {
    var r := Adopted(w, s, key);
    var n := s.unused + 1;
    assert r.envs[s.unused].env == Some(n);
    assert EnvPointer(n) !in s.abandoned;
    forall m | m in r.ledger.envs ensures EnvAccounted(r, m) {
      if m != n {
        assert EnvAccounted(s, m);
        if HoldsEnv(s, m) {
          var d :| d in s.envs && s.envs[d].env == Some(m);
          assert r.envs[d].env == Some(m);
        }
      }
    }
    forall m | m in r.ledger.txns ensures TxnAccounted(r, m) {
      assert TxnAccounted(s, m);
      assert HoldsTxn(s, m) <==> HoldsTxn(r, m);
    }
  }

  lemma {:induction false} WithoutLast(s: seq<nat>, x: nat)
    requires x !in s
    ensures Without(s + [x], x) == s
  {
    if s == [] {
      assert [x][1..] == [];
    } else {
      assert (s + [x])[1..] == s[1..] + [x];
      WithoutLast(s[1..], x);
    }
  }

  /** Configuring and opening, with the handle thought of as registered all along. */
  lemma OpenCreatedForm(w: World, s: Proc, e: nat, n: nat, found: Store)
    requires e in s.envs && s.envs[e].env == Some(n) && UsableHandle(s, s.envs[e])
    requires e !in s.openEnvs
    ensures var a := s.(openEnvs := s.openEnvs + [e]);
            var (b, o) := GuardEnv(w, a, e, OpenEnv(n, found));
            var r := OpenCreated(w, s, e, n, found);
            && e in b.envs
            && (r.reply == Opened(e) <==> o == Returned(SUCCESS))
            && r.proc == if o == Returned(SUCCESS) then RecordHeapRoots(w, b, e)
                         else DeleteEnv(CloseHandle(w, b, e, false).proc, e)
  {
    WithoutLast(s.openEnvs, e);
  }

  lemma OpenForm(w: World, s: Proc, key: string, found: Store)
    requires forall e :: e in s.openEnvs ==> e in s.envs
    requires FindOpenEnv(s, key).None? && s.unused !in s.envs
    ensures var e, n := s.unused, s.unused + 1;
            var r := OpenStep(w, s, key, found);
            if Answer(w, s.ledger, CreateEnv(n)) != Returned(SUCCESS) then
              && r.proc == s.(unused := s.unused + 2,
                              ledger := Make(w, s.ledger, s.pid, CreateEnv(n)))
              && !r.reply.Opened?
            else
              r == OpenCreated(w, Adopted(w, s, key).(openEnvs := s.openEnvs), e, n, found)
  {
    var e, n := s.unused, s.unused + 1;
    var a := Adopted(w, s, key).(openEnvs := s.openEnvs);
    var h := EnvHandle(None, false, s.pid, key, [], NO_ROOTS);
    var (made, o) := GuardEnv(w, SetEnv(s, e, h).(unused := s.unused + 2), e, CreateEnv(n));
    if o == Returned(SUCCESS) {
      assert a.envs == SetEnv(made, e, h.(env := Some(n))).envs;
    } else {
      assert DeleteEnv(made, e).envs == s.envs;
    }
  }

  lemma NotCreatedInv(w: World, s: Proc)
    requires Inv(s) && Answer(w, s.ledger, CreateEnv(s.unused + 1)) != Returned(SUCCESS)
    ensures Inv(s.(unused := s.unused + 2,
                   ledger := Make(w, s.ledger, s.pid, CreateEnv(s.unused + 1))))
  {
    KeepBookkeeping(s, s.(unused := s.unused + 2,
                          ledger := Make(w, s.ledger, s.pid, CreateEnv(s.unused + 1))));
  }

  lemma NewNumber(s: Proc)
    requires Inv(s)
    ensures s.unused !in s.envs && s.unused !in s.openEnvs
    ensures s.unused !in s.txns && s.unused !in s.ledger.envs && s.unused !in s.ledger.txns
  {}

  lemma OpenAdoptedInv(w: World, s: Proc, key: string, found: Store)
    requires Inv(Adopted(w, s, key)) && s.unused !in s.openEnvs
    ensures Inv(OpenCreated(w, Adopted(w, s, key).(openEnvs := s.openEnvs), s.unused, s.unused + 1,
                            found).proc)
  {
    var a := Adopted(w, s, key);
    var b := a.(openEnvs := s.openEnvs);
    assert b.(openEnvs := s.openEnvs + [s.unused]) == a;
    OpenCreatedInv(w, b, s.unused, s.unused + 1, found);
  }

  lemma OpenInv(w: World, s: Proc, key: string, found: Store)
    requires Inv(s)
    ensures NoDangling(s)
    ensures Inv(OpenStep(w, s, key, found).proc)
  {
    InvNoDangling(s);
    NewNumber(s);
    if FindOpenEnv(s, key).None? {
      OpenForm(w, s, key, found);
      if Answer(w, s.ledger, CreateEnv(s.unused + 1)) != Returned(SUCCESS) {
        NotCreatedInv(w, s);
      } else {
        KeepAdopted(w, s, key);
        OpenAdoptedInv(w, s, key, found);
      }
    }
  }

  lemma OpenCreatedInv(w: World, s: Proc, e: nat, n: nat, found: Store)
    requires Inv(s.(openEnvs := s.openEnvs + [e])) && e !in s.openEnvs
    requires e in s.envs && s.envs[e].env == Some(n) && UsableHandle(s, s.envs[e])
    requires s.envs[e].live == []
    ensures Inv(OpenCreated(w, s, e, n, found).proc)
  {
    var a := s.(openEnvs := s.openEnvs + [e]);
    assert EnvNative(a, e);
    KeepEnvCall(w, a, e, OpenEnv(n, found));
    var b := GuardEnv(w, a, e, OpenEnv(n, found)).0;
    OpenCreatedForm(w, s, e, n, found);
    KeepRoots(w, b, e);
    KeepClose(w, b, e, false);
    KeepDeleteEnv(CloseHandle(w, b, e, false).proc, e);
  }

  // -------------------------------------------------------------------------
  // Nothing points to what is deleted
  // -------------------------------------------------------------------------

  lemma NoPointerToEnv(s: Proc, e: nat)
    requires Inv(s) && e in s.envs && s.envs[e].env.None?
    ensures e !in s.openEnvs && forall t :: t in s.txns ==> s.txns[t].owner != Some(e)
  {}

  lemma NoPointerToTxn(s: Proc, t: nat)
    requires Inv(s) && t in s.txns && s.txns[t].owner.None?
    ensures forall e :: e in s.envs ==> t !in s.envs[e].live
  {}

  /** When the finalizer of an environment deletes its handle, nothing refers to it. */
  lemma ClosedUnreferenced(w: World, s: Proc, e: nat)
    requires Inv(s) && OwningThread(w) && e in s.envs
    ensures NoDangling(s)
    ensures var r := CloseHandle(w, DetachTxns(w, s, e), e, false).proc;
            e !in r.openEnvs && forall t :: t in r.txns ==> r.txns[t].owner != Some(e)
  {
    KeepDetach(w, s, e);
    KeepClose(w, DetachTxns(w, s, e), e, false);
    NoPointerToEnv(CloseHandle(w, DetachTxns(w, s, e), e, false).proc, e);
  }

  lemma EndedUnreferenced(w: World, s: Proc, t: nat)
    requires Inv(s) && OwningThread(w) && t in s.txns
    ensures s.txns[t].txn.None? ==>
              s.txns[t].owner.None? && forall e :: e in s.envs ==> t !in s.envs[e].live
    ensures s.txns[t].txn.Some? ==>
              && s.txns[t].owner.Some? && s.txns[t].owner.value in s.envs
              && var r := MarkFinished(w, Release(w, s, t), t, Aborted);
                 forall e :: e in r.envs ==> t !in r.envs[e].live
  {
    assert TxnLinked(s, t);
    if s.txns[t].txn.None? {
      NoPointerToTxn(s, t);
    } else {
      KeepRelease(w, s, t);
      NoPointerToTxn(MarkFinished(w, Release(w, s, t), t, Aborted), t);
    }
  }

  // -------------------------------------------------------------------------
  // Every step, and every run
  // -------------------------------------------------------------------------

  lemma StepInv(w: World, s: Proc, step: Step)
    requires Inv(s) && OwningThread(w)
    ensures NoDangling(s)
    ensures Inv(Do(w, s, step).proc)
  {
    InvNoDangling(s);
    match step
    case Open(key, found) => OpenInv(w, s, key, found);
    case Close(e) => CloseStepInv(w, s, e);
    case Begin(e, write) => BeginInv(w, s, e, write);
    case Commit(t) => FinishInv(w, s, t, true);
    case Abort(t) => AbortInv(w, s, t);
    case EnvOp(e, inTxn) => EnvOpInv(w, s, e, inTxn);
    case TxnStat(t) => OpsInv(w, s, t, EMPTY_STORE);
    case TxnOp(t, next) => OpsInv(w, s, t, next);
    case FinalizeEnv(e) => FinalizeEnvInv(w, s, e);
    case FinalizeTxn(t) => FinalizeTxnInv(w, s, t);
    case Fork(child) => KeepFork(s, child);
  }
}
