/** Cleanup in any order: the two finalizers commute, a panic leaves handles that can be released
    without libmdbx, and one look at `usable` is enough for detach_txns. */
module Cleanup {
  import opened Bytes
  import opened ReferenceModel
  import opened Native
  import opened Handles
  import opened Invariant
  import opened Preservation

  // -------------------------------------------------------------------------
  // Finalizers
  // -------------------------------------------------------------------------

  /** Equal but for the unguarded reads of list starts. */
  predicate SameButPeeks(a: Proc, b: Proc) {
    a == b.(ledger := b.ledger.(peeks := a.ledger.peeks))
  }

  lemma CloseIgnoresTxn(w: World, s: Proc, e: nat, t: nat)
    requires e in s.envs
    ensures CloseHandle(w, DeleteTxn(s, t), e, false).proc
         == DeleteTxn(CloseHandle(w, s, e, false).proc, t)
  {}

  /** Fresh list starts do not outlive the environment they were read from. */
  lemma CloseForgetsRoots(w: World, s: Proc, e: nat)
    requires e in s.envs && !s.ledger.faulted
    requires s.envs[e].env.Some? && UsableHandle(s, s.envs[e])
             ==> EnvOk(s.ledger, s.pid, s.envs[e].env.value)
    ensures SameButPeeks(DeleteEnv(CloseHandle(w, RecordHeapRoots(w, s, e), e, false).proc, e),
                         DeleteEnv(CloseHandle(w, s, e, false).proc, e))
  {
    var a := DeleteEnv(CloseHandle(w, RecordHeapRoots(w, s, e), e, false).proc, e);
    var b := DeleteEnv(CloseHandle(w, s, e, false).proc, e);
    assert a.envs == b.envs;
  }

  lemma EndIgnoresTxn(w: World, s: Proc, u: nat, t: nat, mayCall: bool)
    requires t != u && u in s.txns
    ensures EndOrAbandon(w, DeleteTxn(s, t), u, mayCall) == DeleteTxn(EndOrAbandon(w, s, u, mayCall), t)
  {
    assert EndOrAbandon(w, DeleteTxn(s, t), u, mayCall).txns
        == DeleteTxn(EndOrAbandon(w, s, u, mayCall), t).txns;
  }

  lemma UnlinkIgnoresTxn(s: Proc, u: nat, t: nat, state: TxnState)
    requires t != u && u in s.txns
    ensures Unlink(DeleteTxn(s, t), u, state) == DeleteTxn(Unlink(s, u, state), t)
  {
    assert Unlink(DeleteTxn(s, t), u, state).txns == DeleteTxn(Unlink(s, u, state), t).txns;
  }

  lemma ReleaseIgnoresTxn(w: World, s: Proc, u: nat, t: nat)
    requires t != u && u in s.txns && s.txns[u].txn.Some? && s.txns[u].owner.Some?
    requires s.txns[u].owner.value in s.envs
    ensures Unlink(Release(w, DeleteTxn(s, t), u), u, Aborted)
         == DeleteTxn(Unlink(Release(w, s, u), u, Aborted), t)
  {
    EndIgnoresTxn(w, s, u, t, UsableHandle(s, s.envs[s.txns[u].owner.value]));
    UnlinkIgnoresTxn(Release(w, s, u), u, t, Aborted);
  }

  /** Once an environment is closed and deleted, a finished transaction is only deleted. */
  lemma FinalizeDetached(w: World, s: Proc, e: nat, t: nat)
    requires e in s.envs && t in s.txns && s.txns[t].txn.None? && s.txns[t].owner.None?
    ensures FinalizeTxnStep(w, DeleteEnv(CloseHandle(w, s, e, false).proc, e), t)
         == DeleteTxn(DeleteEnv(CloseHandle(w, s, e, false).proc, e), t)
  {}

  /** Finalizing an environment does not look at a finished transaction. */
  lemma FinishedCommute(w: World, s: Proc, e: nat, t: nat)
    requires e in s.envs && s.envs[e].live == []
    requires t in s.txns && s.txns[t].txn.None? && s.txns[t].owner.None?
    ensures FinalizeEnvStep(w, FinalizeTxnStep(w, s, t), e)
         == FinalizeTxnStep(w, FinalizeEnvStep(w, s, e), t)
  {}

  lemma FinishedBesideRunning(w: World, s: Proc, e: nat, t: nat, u: nat)
    requires e in s.envs && s.envs[e].live == [u] && u != t
    requires u in s.txns && s.txns[u].txn.Some? && s.txns[u].owner == Some(e)
    requires s.txns[u].poisoned ==> s.envs[e].poisoned
    requires t in s.txns && s.txns[t].txn.None? && s.txns[t].owner.None?
    ensures FinalizeEnvStep(w, FinalizeTxnStep(w, s, t), e)
         == FinalizeTxnStep(w, FinalizeEnvStep(w, s, e), t)
  {
    DetachSingle(w, s, e, u);
    DetachSingle(w, DeleteTxn(s, t), e, u);
    ReleaseIgnoresTxn(w, s, u, t);
    CloseIgnoresTxn(w, DetachTxns(w, s, e), e, t);
    FinalizeDetached(w, DetachTxns(w, s, e), e, t);
  }

  lemma FinalizeRunning(w: World, s: Proc, e: nat, t: nat)
    requires e in s.envs && s.envs[e].live == [t]
    requires t in s.txns && s.txns[t].txn.Some? && s.txns[t].owner == Some(e)
    requires s.txns[t].poisoned ==> s.envs[e].poisoned
    requires s.txns[t].pid == s.envs[e].pid
    ensures var freed := Unlink(Release(w, s, t), t, Aborted);
            FinalizeTxnStep(w, s, t)
            == DeleteTxn(if s.txns[t].write then RecordHeapRoots(w, freed, e) else freed, t)
  {
    MarkFinishedLate(w, Release(w, s, t), t, Aborted);
  }

  lemma RunningCommute(w: World, s: Proc, e: nat, t: nat)
    requires e in s.envs && s.envs[e].live == [t]
    requires t in s.txns && s.txns[t].txn.Some? && s.txns[t].owner == Some(e)
    requires s.txns[t].poisoned ==> s.envs[e].poisoned
    requires s.txns[t].pid == s.envs[e].pid
    requires var freed := Unlink(Release(w, s, t), t, Aborted);
             && !freed.ledger.faulted
             && (UsableHandle(freed, freed.envs[e])
                 ==> EnvOk(freed.ledger, freed.pid, freed.envs[e].env.value))
    ensures forall u :: e in FinalizeTxnStep(w, s, t).envs && u in FinalizeTxnStep(w, s, t).envs[e].live
              ==> u in FinalizeTxnStep(w, s, t).txns
    ensures SameButPeeks(FinalizeEnvStep(w, FinalizeTxnStep(w, s, t), e),
                         FinalizeTxnStep(w, FinalizeEnvStep(w, s, e), t))
  {
    var freed := Unlink(Release(w, s, t), t, Aborted);
    var first := if s.txns[t].write then RecordHeapRoots(w, freed, e) else freed;
    ReleaseKeepsEnv(w, s, e, t);
    DetachSingle(w, s, e, t);
    FinalizeDetached(w, freed, e, t);
    FinalizeRunning(w, s, e, t);
    DetachNone(w, DeleteTxn(first, t), e);
    CloseIgnoresTxn(w, first, e, t);
    CloseForgetsRoots(w, freed, e);
  }

  lemma FreedUsable(w: World, s: Proc, e: nat, t: nat)
    requires Inv(s) && OwningThread(w) && e in s.envs
    requires t in s.txns && s.txns[t].txn.Some? && s.txns[t].owner == Some(e)
    ensures s.envs[e].live == [t] && s.txns[t].pid == s.envs[e].pid
    ensures s.txns[t].poisoned ==> s.envs[e].poisoned
    ensures var freed := Unlink(Release(w, s, t), t, Aborted);
            && e in freed.envs && !freed.ledger.faulted
            && (UsableHandle(freed, freed.envs[e])
                ==> EnvOk(freed.ledger, freed.pid, freed.envs[e].env.value))
  {
    assert TxnLinked(s, t);
    KeepRelease(w, s, t);
    ReleaseKeepsEnv(w, s, e, t);
    assert EnvNative(Unlink(Release(w, s, t), t, Aborted), e);
  }

  lemma NoDanglingAfterTxn(w: World, s: Proc, t: nat)
    requires Inv(s) && OwningThread(w)
    ensures NoDangling(s) && NoDangling(FinalizeTxnStep(w, s, t))
  {
    InvNoDangling(s);
    FinalizeTxnInv(w, s, t);
    InvNoDangling(FinalizeTxnStep(w, s, t));
  }

  /** Whichever finalizer R happens to run first, libmdbx gets the same calls, and the same
      handles, registries and abandoned pointers are left. */
  lemma FinalizersCommute(w: World, s: Proc, e: nat, t: nat)
    requires Inv(s) && OwningThread(w) && e in s.envs && t in s.txns
    requires s.txns[t].owner == Some(e) || s.txns[t].owner.None?
    ensures NoDangling(s) && NoDangling(FinalizeTxnStep(w, s, t))
    ensures SameButPeeks(FinalizeEnvStep(w, FinalizeTxnStep(w, s, t), e),
                         FinalizeTxnStep(w, FinalizeEnvStep(w, s, e), t))
  {
    NoDanglingAfterTxn(w, s, t);
    assert TxnLinked(s, t) && EnvLinked(s, e);
    var live := s.envs[e].live;
    if s.txns[t].txn.Some? {
      FreedUsable(w, s, e, t);
      RunningCommute(w, s, e, t);
    } else if live == [] {
      FinishedCommute(w, s, e, t);
    } else {
      assert live == [live[0]] && TxnLinked(s, live[0]);
      FinishedBesideRunning(w, s, e, t, live[0]);
    }
  }

  // -------------------------------------------------------------------------
  // After a panic
  // -------------------------------------------------------------------------

  /** What either order of abort and close leaves. */
  function Abandoned(s: Proc, e: nat, t: nat): Proc
    requires e in s.envs && t in s.txns
  {
    s.(txns := s.txns[t := s.txns[t].(txn := None, owner := None, state := Aborted)],
       envs := s.envs[e := s.envs[e].(env := None, live := [])],
       openEnvs := Without(s.openEnvs, e),
       abandoned := AbandonEnv(AbandonTxn(s.abandoned, s.txns[t].txn), s.envs[e]))
  }

  /** A poisoned environment of this process with its transaction still registered. */
  predicate Stricken(s: Proc, e: nat, t: nat) {
    && e in s.envs && s.envs[e].env.Some? && s.envs[e].poisoned && s.envs[e].pid == s.pid
    && s.envs[e].live == [t]
    && t in s.txns && s.txns[t].txn.Some? && s.txns[t].owner == Some(e) && s.txns[t].pid == s.pid
  }

  lemma AbortThenClose(w: World, s: Proc, e: nat, t: nat)
    requires Stricken(s, e, t)
    ensures AbortStep(w, s, t).reply == Done
    ensures var aborted := AbortStep(w, s, t).proc;
            && e in aborted.envs && aborted.envs[e].live == []
            && CloseStep(w, aborted, e) == Result(Abandoned(s, e, t), Done)
  {}

  lemma CloseThenAbort(w: World, s: Proc, e: nat, t: nat)
    requires Stricken(s, e, t)
    ensures CloseStep(w, s, e) == Result(Abandoned(s, e, t), Done)
    ensures AbortStep(w, Abandoned(s, e, t), t) == Result(Abandoned(s, e, t), Done)
  {
    DetachSingle(w, s, e, t);
    assert Without([t], t) == [];
    assert CloseStep(w, s, e).proc.envs == Abandoned(s, e, t).envs;
  }

  /** After a panic, abort-then-close and close-then-abort both succeed, call libmdbx not at all,
      and leave the same memory, which further aborts and closes do not change. */
  lemma PanicIsRecoverable(w: World, s: Proc, e: nat, t: nat)
    requires Inv(s) && Stricken(s, e, t)
    ensures NoDangling(s) && NoDangling(AbortStep(w, s, t).proc) && NoDangling(Abandoned(s, e, t))
    ensures AbortStep(w, s, t).reply == Done
    ensures CloseStep(w, AbortStep(w, s, t).proc, e) == Result(Abandoned(s, e, t), Done)
    ensures CloseStep(w, s, e) == Result(Abandoned(s, e, t), Done)
    ensures AbortStep(w, Abandoned(s, e, t), t) == Result(Abandoned(s, e, t), Done)
    ensures CloseStep(w, Abandoned(s, e, t), e) == Result(Abandoned(s, e, t), Done)
    ensures Abandoned(s, e, t).ledger == s.ledger
  {
    InvNoDangling(s);
    AbortInv(w, s, t);
    InvNoDangling(AbortStep(w, s, t).proc);
    AbortThenClose(w, s, e, t);
    CloseThenAbort(w, s, e, t);
    var r := Abandoned(s, e, t);
    forall d, u | d in r.envs && u in r.envs[d].live ensures u in r.txns {
      assert EnvLinked(s, d);
    }
    DetachNone(w, r, e);
  }

  /** A poisoned environment of this process that has no transaction is released the same way. */
  lemma ClosePoisoned(w: World, s: Proc, e: nat)
    requires e in s.envs && s.envs[e].env.Some? && s.envs[e].poisoned && s.envs[e].pid == s.pid
    requires s.envs[e].live == []
    ensures var r := CloseStep(w, s, e);
            && r.reply == Done && r.proc.ledger == s.ledger
            && r.proc == s.(envs := s.envs[e := s.envs[e].(env := None)],
                            openEnvs := Without(s.openEnvs, e),
                            abandoned := AbandonEnv(s.abandoned, s.envs[e]))
            && CloseStep(w, r.proc, e) == r
  {
    DetachNone(w, s, e);
    DetachNone(w, CloseStep(w, s, e).proc, e);
  }

  predicate Releasable(s: Proc, e: nat) {
    && e in s.envs && s.envs[e].env.Some? && s.envs[e].poisoned && s.envs[e].pid == s.pid
    && (s.envs[e].live == [] || Stricken(s, e, s.envs[e].live[0]))
  }

  lemma PanicInTxnCall(w: World, s: Proc, t: nat, c: Call)
    requires Inv(s) && TxnRefusal(s, t).None? && Answer(w, s.ledger, c).Panicked?
    ensures var r := GuardTxn(w, s, t, c).0;
            && s.txns[t].owner.Some? && Releasable(r, s.txns[t].owner.value)
            && r.envs[s.txns[t].owner.value].live == [t]
  {
    AcceptedTxn(s, t);
  }

  lemma PanicInEnvCall(w: World, s: Proc, e: nat, c: Call)
    requires Inv(s) && EnvRefusal(s, e).None? && Answer(w, s.ledger, c).Panicked?
    ensures Releasable(GuardEnv(w, s, e, c).0, e)
  {}

  lemma BeginPanics(w: World, s: Proc, e: nat, write: bool)
    requires BeginStep(w, s, e, write).reply == Panic
    ensures EnvRefusal(s, e).None? && s.envs[e].live == []
    ensures Answer(w, s.ledger, BeginTxn(s.envs[e].env.value, s.unused + 1, write)).Panicked?
  {}

  lemma PanicInBegin(w: World, s: Proc, e: nat, write: bool)
    requires Inv(s) && BeginStep(w, s, e, write).reply == Panic
    ensures Releasable(BeginStep(w, s, e, write).proc, e)
  {
    BeginPanics(w, s, e, write);
    BeginAllowed(s, e, write);
    BeginForm(w, s, e, write);
    PanicInUnbegun(w, s, e, BeginTxn(s.envs[e].env.value, s.unused + 1, write));
  }

  lemma PanicInUnbegun(w: World, s: Proc, e: nat, c: Call)
    requires Inv(s) && EnvRefusal(s, e).None? && Answer(w, s.ledger, c).Panicked?
    ensures Releasable(GuardEnv(w, s.(unused := s.unused + 2), e, c).0, e)
  {}

  lemma PanicInFinish(w: World, s: Proc, t: nat, commit: bool)
    requires Inv(s) && FinishStep(w, s, t, commit).reply == Panic
    ensures var r := FinishStep(w, s, t, commit).proc;
            && t in s.txns && s.txns[t].owner.Some? && Releasable(r, s.txns[t].owner.value)
            && r.envs[s.txns[t].owner.value].live == [t]
  {
    var n := s.txns[t].txn.value;
    PanicInTxnCall(w, s, t, if commit then CommitTxn(n) else AbortTxn(n));
  }

  lemma PanicInOp(w: World, s: Proc, t: nat, next: Store)
    requires Inv(s) && TxnOpStep(w, s, t, next).reply == Panic
    ensures var r := TxnOpStep(w, s, t, next).proc;
            && t in s.txns && s.txns[t].owner.Some? && Releasable(r, s.txns[t].owner.value)
            && r.envs[s.txns[t].owner.value].live == [t]
  {
    PanicInTxnCall(w, s, t, TxnCall(s.txns[t].txn.value, next));
  }

  lemma PanicInStat(w: World, s: Proc, t: nat)
    requires Inv(s) && TxnStatStep(w, s, t).reply == Panic
    ensures var r := TxnStatStep(w, s, t).proc;
            && t in s.txns && s.txns[t].owner.Some? && Releasable(r, s.txns[t].owner.value)
            && r.envs[s.txns[t].owner.value].live == [t]
  {
    AcceptedTxn(s, t);
    var e := s.txns[t].owner.value;
    PanicInEnvCall(w, s, e, EnvCall(s.envs[e].env.value, s.txns[t].txn));
  }

  /** If it was asked of a transaction, that is the one registered on the environment. */
  predicate OnlyAsked(s: Proc, e: nat, step: Step) {
    (step.Commit? || step.Abort? || step.TxnStat? || step.TxnOp?) ==> e in s.envs && s.envs[e].live == [step.t]
  }

  /** The environment an operation works on. */
  function Subject(s: Proc, step: Step): Option<nat> {
    match step
    case Begin(e, _) => Some(e)
    case EnvOp(e, _) => Some(e)
    case Commit(t) => if t in s.txns then s.txns[t].owner else None
    case Abort(t) => if t in s.txns then s.txns[t].owner else None
    case TxnStat(t) => if t in s.txns then s.txns[t].owner else None
    case TxnOp(t, _) => if t in s.txns then s.txns[t].owner else None
    case _ => None
  }

  /** Every panic an operation reports, other than from an open or a close, leaves the environment
      it worked on in the state the lemmas above release it from. */
  lemma PanicLeavesReleasable(w: World, s: Proc, step: Step)
    requires Inv(s) && NoDangling(s) && Do(w, s, step).reply == Panic
    requires !step.Open? && !step.Close?
    ensures var e := Subject(s, step);
            && e.Some? && Releasable(Do(w, s, step).proc, e.value)
            && OnlyAsked(Do(w, s, step).proc, e.value, step)
  {
    match step
    case Begin(e, write) => PanicInBegin(w, s, e, write);
    case Commit(t) => PanicInFinish(w, s, t, true);
    case Abort(t) => PanicInFinish(w, s, t, false);
    case EnvOp(e, inTxn) =>
      var under := if inTxn then CurrentTxn(s, s.envs[e].live) else None;
      PanicInEnvCall(w, s, e, EnvCall(s.envs[e].env.value, under));
    case TxnStat(t) => PanicInStat(w, s, t);
    case TxnOp(t, next) => PanicInOp(w, s, t, next);
    case FinalizeEnv(e) =>
    case FinalizeTxn(t) =>
    case Fork(child) =>
  }

  /** What is left of a stricken environment once it is closed. */
  function Released(s: Proc, e: nat): Proc
    requires Releasable(s, e)
  {
    if s.envs[e].live != [] then Abandoned(s, e, s.envs[e].live[0])
    else s.(envs := s.envs[e := s.envs[e].(env := None)],
            openEnvs := Without(s.openEnvs, e),
            abandoned := AbandonEnv(s.abandoned, s.envs[e]))
  }

  /** Closing the environment, or aborting its transaction and then closing it, or the reverse, all
      succeed without a call to libmdbx and end in one state, which closing and aborting again do
      not change. */
  ghost predicate Recoverable(w: World, s: Proc, e: nat) {
    && Releasable(s, e) && NoDangling(s) && NoDangling(Released(s, e))
    && CloseStep(w, s, e) == Result(Released(s, e), Done)
    && CloseStep(w, Released(s, e), e) == Result(Released(s, e), Done)
    && Released(s, e).ledger == s.ledger
    && (s.envs[e].live != [] ==> EitherOrder(w, s, e, s.envs[e].live[0]))
  }

  ghost predicate EitherOrder(w: World, s: Proc, e: nat, t: nat)
    requires Releasable(s, e)
  {
    var aborted := AbortStep(w, s, t);
    && aborted.reply == Done && NoDangling(aborted.proc)
    && CloseStep(w, aborted.proc, e) == Result(Released(s, e), Done)
    && AbortStep(w, Released(s, e), t) == Result(Released(s, e), Done)
  }

  lemma ReleaseWorks(w: World, s: Proc, e: nat)
    requires Inv(s) && Releasable(s, e)
    ensures Recoverable(w, s, e)
  {
    InvNoDangling(s);
    if s.envs[e].live == [] {
      ClosePoisoned(w, s, e);
    } else {
      assert s.envs[e].live == [s.envs[e].live[0]];
      PanicIsRecoverable(w, s, e, s.envs[e].live[0]);
    }
  }

  /** So the environment any such panic struck can be released, whichever way the caller goes about
      it, the transaction being the one the operation was asked of. */
  lemma PanicThenCleanup(w: World, s: Proc, step: Step)
    requires Inv(s) && OwningThread(w) && NoDangling(s) && Do(w, s, step).reply == Panic
    requires !step.Open? && !step.Close?
    ensures Subject(s, step).Some?
    ensures Recoverable(w, Do(w, s, step).proc, Subject(s, step).value)
    ensures OnlyAsked(Do(w, s, step).proc, Subject(s, step).value, step)
  {
    StepInv(w, s, step);
    PanicLeavesReleasable(w, s, step);
    ReleaseWorks(w, Do(w, s, step).proc, Subject(s, step).value);
  }

  lemma CreatePanics(w: World, s: Proc, e: nat, n: nat, found: Store)
    requires e in s.envs
    ensures var r := CreateCall(w, s, e, n, found);
            r.reply == Panic ==>
              r.proc.envs == s.envs - {e} && r.proc.txns == s.txns && r.proc.openEnvs == s.openEnvs
  {
    var (made, o) := GuardEnv(w, s, e, CreateEnv(n));
    if o.Returned? {
      OpenPanics(w, SetEnv(made, e, made.envs[e].(env := Some(n))), e, n, found);
    }
  }

  lemma OpenPanics(w: World, s: Proc, e: nat, n: nat, found: Store)
    requires e in s.envs
    ensures var r := OpenCreated(w, s, e, n, found);
            r.reply == Panic ==>
              r.proc.envs == s.envs - {e} && r.proc.txns == s.txns && r.proc.openEnvs == s.openEnvs
  {}

  lemma OpenNewPanics(w: World, s: Proc, key: string, found: Store)
    requires s.unused !in s.envs
    ensures var r := OpenNew(w, s, key, found);
            r.reply == Panic ==>
              r.proc.envs == s.envs && r.proc.txns == s.txns && r.proc.openEnvs == s.openEnvs
  {
    var h := EnvHandle(None, false, s.pid, key, [], NO_ROOTS);
    CreatePanics(w, SetEnv(s, s.unused, h).(unused := s.unused + 2), s.unused, s.unused + 1, found);
  }

  /** A panic in an open leaves nothing behind to release. */
  lemma PanicInOpen(w: World, s: Proc, key: string, found: Store)
    requires Inv(s) && NoDangling(s) && Do(w, s, Open(key, found)).reply == Panic
    ensures var r := Do(w, s, Open(key, found)).proc;
            r.envs == s.envs && r.txns == s.txns && r.openEnvs == s.openEnvs
  {
    NewNumber(s);
    OpenNewPanics(w, s, key, found);
  }

  lemma BrokenByEnd(w: World, s: Proc, t: nat, e: nat)
    requires t in s.txns && s.txns[t].txn.Some? && s.txns[t].owner == Some(e) && e in s.envs
    requires s.envs[e].live == [t] && UsableHandle(s, s.envs[e])
    requires Answer(w, s.ledger, AbortTxn(s.txns[t].txn.value)).Panicked?
    ensures var r := DeleteTxn(MarkFinished(w, EndOrAbandon(w, s, t, true), t, Aborted), t);
            Releasable(r, e) && r.envs[e].live == []
  {
    assert Without([t], t) == [];
  }

  /** The transaction finalizer reports nothing, but a panic in its abort leaves the environment to
      be released just the same. */
  lemma PanicInFinalizer(w: World, s: Proc, t: nat)
    requires Inv(s) && OwningThread(w) && TxnRefusal(s, t).None?
    requires Answer(w, s.ledger, AbortTxn(s.txns[t].txn.value)).Panicked?
    ensures s.txns[t].owner.Some?
    ensures Recoverable(w, FinalizeTxnStep(w, s, t), s.txns[t].owner.value)
  {
    AcceptedTxn(s, t);
    FinalizeTxnInv(w, s, t);
    FinalizeLinked(w, s, t);
    BrokenByEnd(w, s, t, s.txns[t].owner.value);
    ReleaseWorks(w, FinalizeTxnStep(w, s, t), s.txns[t].owner.value);
  }

  // -------------------------------------------------------------------------
  // What cleanup relies on
  // -------------------------------------------------------------------------

  /** detach_txns as it would be if it looked at the environment before each transaction. */
  function DetachChecked(w: World, s: Proc, e: nat, live: seq<nat>): Proc
    requires forall t :: t in live ==> t in s.txns
    decreases |live|
  {
    if live == [] then s
    else
      var usable := e in s.envs && UsableHandle(s, s.envs[e]);
      DetachChecked(w, DetachOne(w, s, live[0], usable), e, live[1..])
  }

  /** Looking once is enough, because at most one transaction is registered... */
  lemma LookingOnceSuffices(w: World, s: Proc, e: nat)
    requires Inv(s) && e in s.envs
    ensures NoDangling(s)
    ensures DetachTxns(w, s, e)
         == var each := DetachChecked(w, s, e, s.envs[e].live);
            if e in each.envs then SetEnv(each, e, each.envs[e].(live := [])) else each
  {
    InvNoDangling(s);
    assert EnvLinked(s, e);
    var live := s.envs[e].live;
    var usable := UsableHandle(s, s.envs[e]);
    if live != [] {
      var one := DetachOne(w, s, live[0], usable);
      assert live[1..] == [];
      assert DetachEach(w, s, live, usable) == DetachEach(w, one, [], usable) == one;
      assert DetachChecked(w, s, e, live) == DetachChecked(w, one, e, []) == one;
    }
  }

  /** ...and only because of that: with two, a panic in the first abort would be followed by a
      call on the environment it broke, for which the checked loop has no occasion. */
  lemma LookingOnceNeedsOne(w: World, s: Proc, e: nat, t: nat, u: nat)
    requires e in s.envs && UsableHandle(s, s.envs[e]) && t != u && t in s.txns && u in s.txns
    requires forall x :: x in {t, u} ==>
               && s.txns[x].txn.Some? && !s.txns[x].poisoned && s.txns[x].owner == Some(e)
               && TxnOk(s.ledger, s.pid, s.txns[x].txn.value)
               && Some(s.ledger.txns[s.txns[x].txn.value].env) == s.envs[e].env
    requires !s.ledger.faulted
    requires forall h, c :: w.outcome(h, c) == Panicked
    ensures DetachEach(w, s, [t, u], true).ledger.faulted
    ensures !DetachChecked(w, s, e, [t, u]).ledger.faulted
  {
    var first := DetachOne(w, s, t, true);
    assert [t, u][1..] == [u] && [u][1..] == [];
    var second := DetachOne(w, first, u, true);
    assert DetachEach(w, s, [t, u], true) == DetachEach(w, first, [u], true);
    assert DetachEach(w, first, [u], true) == DetachEach(w, second, [], true) == second;
    var last := DetachOne(w, first, u, false);
    assert DetachChecked(w, s, e, [t, u]) == DetachChecked(w, first, e, [u]);
    assert DetachChecked(w, first, e, [u]) == DetachChecked(w, last, e, []) == last;
  }

  lemma FinalizeEnds(w: World, s: Proc, t: nat, n: nat)
    requires t in s.txns && s.txns[t].txn == Some(n) && TxnOk(s.ledger, s.pid, n)
    ensures var made := EndOrAbandon(w, s, t, true);
            var o := Answer(w, s.ledger, AbortTxn(n));
            && made.txns.Keys == s.txns.Keys && n in made.ledger.txns
            && (made.ledger.txns[n].ended <==> o.Returned? && o.rc != THREAD_MISMATCH)
            && made.abandoned == (if o.Panicked? then s.abandoned + [TxnPointer(n)] else s.abandoned)
            && forall u :: u in s.txns ==> made.txns[u].txn == s.txns[u].txn
  {}

  lemma MarkKeeps(w: World, s: Proc, t: nat)
    requires t in s.txns
    ensures var r := MarkFinished(w, s, t, Aborted);
            && r.ledger.txns == s.ledger.txns && r.abandoned == s.abandoned
            && r.txns.Keys == s.txns.Keys
            && forall u :: u in s.txns && u != t ==> r.txns[u] == s.txns[u]
  {}

  lemma FinalizeUsable(w: World, s: Proc, t: nat, n: nat)
    requires TxnRefusal(s, t).None? && s.txns[t].txn == Some(n) && TxnOk(s.ledger, s.pid, n)
    requires TxnLinked(s, t) && UsableHandle(s, s.envs[s.txns[t].owner.value])
    requires forall u :: u in s.txns && u != t ==> s.txns[u].txn != Some(n)
    ensures var r := FinalizeTxnStep(w, s, t);
            var o := Answer(w, s.ledger, AbortTxn(n));
            && n in r.ledger.txns
            && (r.ledger.txns[n].ended <==> o.Returned? && o.rc != THREAD_MISMATCH)
            && r.abandoned == (if o.Panicked? then s.abandoned + [TxnPointer(n)] else s.abandoned)
            && forall u :: u in r.txns ==> r.txns[u].txn != Some(n)
  {
    FinalizeLinked(w, s, t);
    FinalizeEnds(w, s, t, n);
    MarkKeeps(w, EndOrAbandon(w, s, t, true), t);
  }

  /** The finalizer ignores what an abort reports. That accounts for the transaction exactly when
      the abort did not report a thread mismatch, which leaves it running. */
  lemma FinalizerTrustsTheThread(w: World, s: Proc, t: nat)
    requires Inv(s) && TxnRefusal(s, t).None?
    ensures var n := s.txns[t].txn.value;
            var r := FinalizeTxnStep(w, s, t);
            && n in r.ledger.txns
            && (|set u | u in r.txns && r.txns[u].txn == Some(n)|
                + (if r.ledger.txns[n].ended then 1 else 0)
                + multiset(r.abandoned)[TxnPointer(n)] == 1
                <==> Answer(w, s.ledger, AbortTxn(n)) != Returned(THREAD_MISMATCH))
  {
    AcceptedTxn(s, t);
    var n := s.txns[t].txn.value;
    assert TxnAccounted(s, n);
    assert HoldsTxn(s, n);
    SoleTxn(s, t);
    FinalizeUsable(w, s, t, n);
    var r := FinalizeTxnStep(w, s, t);
    assert (set u | u in r.txns && r.txns[u].txn == Some(n)) == {};
  }
}
