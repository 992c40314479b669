/** What the lifecycle machine amounts to, over whole runs: which calls libmdbx can ever receive,
    what becomes of every native handle, and that cleanup may happen in any order. */
module Safety {
  import opened Bytes
  import opened ReferenceModel
  import opened Native
  import opened History
  import opened Handles
  import opened Invariant
  import opened Preservation

  // -------------------------------------------------------------------------
  // Runs
  // -------------------------------------------------------------------------

  /** The process after a run of steps. A fork in a run continues as the child, so the runs from
      one start are the processes of every tree of forks below it. */
  ghost function Run(w: World, s: Proc, steps: seq<Step>): (r: Proc)
    requires Inv(s) && OwningThread(w)
    ensures Inv(r)
    decreases |steps|
  {
    StepInv(w, s, if steps == [] then Fork(s.pid) else steps[0]);
    if steps == [] then s else Run(w, Do(w, s, steps[0]).proc, steps[1..])
  }

  ghost predicate KeptByCalls(w: World, p: Ledger -> bool) {
    && (forall l, pid, c :: p(l) ==> p(Make(w, l, pid, c)))
    && (forall l, pid, e :: p(l) ==> p(ReadRoots(l, pid, e)))
  }

  lemma OpenLedger(w: World, s: Proc, key: string, found: Store, p: Ledger -> bool)
    requires forall e :: e in s.openEnvs ==> e in s.envs
    requires p(s.ledger) && KeptByCalls(w, p)
    ensures p(OpenStep(w, s, key, found).proc.ledger)
  {}

  lemma DetachLedger(w: World, s: Proc, e: nat, p: Ledger -> bool)
    requires Inv(s) && e in s.envs && p(s.ledger) && KeptByCalls(w, p)
    ensures NoDangling(s) && e in DetachTxns(w, s, e).envs
    ensures p(DetachTxns(w, s, e).ledger)
  {
    DetachForm(w, s, e);
  }

  lemma CloseLedger(w: World, s: Proc, e: nat, propagate: bool, p: Ledger -> bool)
    requires e in s.envs && p(s.ledger) && KeptByCalls(w, p)
    ensures p(CloseHandle(w, s, e, propagate).proc.ledger)
  {}

  lemma FinishLedger(w: World, s: Proc, t: nat, commit: bool, p: Ledger -> bool)
    requires p(s.ledger) && KeptByCalls(w, p)
    ensures p(FinishStep(w, s, t, commit).proc.ledger)
  {}

  lemma AbortLedger(w: World, s: Proc, t: nat, p: Ledger -> bool)
    requires p(s.ledger) && KeptByCalls(w, p)
    ensures p(AbortStep(w, s, t).proc.ledger)
  {
    FinishLedger(w, s, t, false, p);
  }

  lemma FinalizeLedger(w: World, s: Proc, t: nat, p: Ledger -> bool)
    requires p(s.ledger) && KeptByCalls(w, p)
    ensures p(FinalizeTxnStep(w, s, t).ledger)
  {}

  lemma BeginLedger(w: World, s: Proc, e: nat, write: bool, p: Ledger -> bool)
    requires p(s.ledger) && KeptByCalls(w, p)
    ensures p(BeginStep(w, s, e, write).proc.ledger)
  {}

  lemma EnvOpLedger(w: World, s: Proc, e: nat, inTxn: bool, p: Ledger -> bool)
    requires p(s.ledger) && KeptByCalls(w, p)
    ensures p(EnvOpStep(w, s, e, inTxn).proc.ledger)
  {}

  lemma TxnOpLedger(w: World, s: Proc, t: nat, next: Store, p: Ledger -> bool)
    requires p(s.ledger) && KeptByCalls(w, p)
    ensures p(TxnStatStep(w, s, t).proc.ledger)
    ensures p(TxnOpStep(w, s, t, next).proc.ledger)
  {}

  /** A property of the ledger that every native call keeps is kept by every step. */
  lemma LedgerInduction(w: World, s: Proc, step: Step, p: Ledger -> bool)
    requires Inv(s) && OwningThread(w) && p(s.ledger) && KeptByCalls(w, p)
    ensures NoDangling(s) && p(Do(w, s, step).proc.ledger)
  {
    InvNoDangling(s);
    match step
    case Open(key, found) => OpenLedger(w, s, key, found, p);
    case Close(e) =>
      if e in s.envs {
        DetachLedger(w, s, e, p);
        CloseLedger(w, s, e, true, p);
        CloseLedger(w, DetachTxns(w, s, e), e, true, p);
      }
    case Begin(e, write) => BeginLedger(w, s, e, write, p);
    case Commit(t) => FinishLedger(w, s, t, true, p);
    case Abort(t) => AbortLedger(w, s, t, p);
    case EnvOp(e, inTxn) => EnvOpLedger(w, s, e, inTxn, p);
    case TxnStat(t) => TxnOpLedger(w, s, t, EMPTY_STORE, p);
    case TxnOp(t, next) => TxnOpLedger(w, s, t, next, p);
    case FinalizeEnv(e) =>
      if e in s.envs {
        DetachLedger(w, s, e, p);
        CloseLedger(w, DetachTxns(w, s, e), e, false, p);
      }
    case FinalizeTxn(t) => FinalizeLedger(w, s, t, p);
    case Fork(child) =>
  }

  // -------------------------------------------------------------------------
  // What libmdbx is asked to do
  // -------------------------------------------------------------------------

  ghost predicate ClosesComeLast(trace: seq<Event>) {
    forall j, k, e, t |
      0 <= j < k < |trace| && Begins(trace[j], e, t) && trace[k].call == CloseEnv(e) ::
      EndedBetween(trace, j, k, t)
  }

  ghost predicate SilentOnceBrokenOrClosed(trace: seq<Event>) {
    forall i, k, e |
      && 0 <= i < k < |trace| && Concerns(trace, i, e)
      && (trace[i].outcome.Panicked? || trace[i].call.CloseEnv?) ::
      !Concerns(trace, k, e)
  }

  ghost predicate OwnProcessOnly(trace: seq<Event>) {
    forall k, e | 0 <= k < |trace| && Concerns(trace, k, e) ::
      exists i :: 0 <= i < k && trace[i] == Event(trace[k].pid, CreateEnv(e), Returned(SUCCESS))
  }

  ghost predicate OneAtATime(trace: seq<Event>) {
    forall j, k, e, t, u |
      0 <= j < k < |trace| && Begins(trace[j], e, t) && Begins(trace[k], e, u) ::
      EndedBetween(trace, j, k, t)
  }

  /** Each read of an environment's list starts came while its process might use it. */
  predicate PeeksAllowed(l: Ledger) {
    forall i :: 0 <= i < |l.peeks| ==>
      l.peeks[i].at <= |l.trace|
      && EnvOk(Replay(l.trace[..l.peeks[i].at]), l.peeks[i].pid, l.peeks[i].env)
  }

  ghost predicate Truthful(l: Ledger) { Recorded(l) && (l.faulted || PeeksAllowed(l)) }

  lemma MakeTruthful(w: World, l: Ledger, pid: nat, c: Call)
    requires Truthful(l)
    ensures Truthful(Make(w, l, pid, c))
  {
    MakeRecorded(w, l, pid, c);
    var r := Make(w, l, pid, c);
    if !r.faulted {
      forall i | 0 <= i < |r.peeks|
        ensures r.peeks[i].at <= |r.trace|
        ensures EnvOk(Replay(r.trace[..r.peeks[i].at]), r.peeks[i].pid, r.peeks[i].env)
      {
        assert r.trace[..r.peeks[i].at] == l.trace[..l.peeks[i].at];
      }
    }
  }

  lemma ReadTruthful(l: Ledger, pid: nat, e: nat)
    requires Truthful(l)
    ensures Truthful(ReadRoots(l, pid, e))
  {
    assert l.trace[..|l.trace|] == l.trace;
  }

  /** A property every native call keeps is kept by whole runs. */
  lemma {:induction false} RunKeeps(w: World, s: Proc, steps: seq<Step>, p: Ledger -> bool)
    requires Inv(s) && OwningThread(w) && p(s.ledger) && KeptByCalls(w, p)
    ensures p(Run(w, s, steps).ledger)
    decreases |steps|
  {
    if steps != [] {
      LedgerInduction(w, s, steps[0], p);
      StepInv(w, s, steps[0]);
      RunKeeps(w, Do(w, s, steps[0]).proc, steps[1..], p);
    }
  }

  lemma RunTruthful(w: World, s: Proc, steps: seq<Step>)
    requires Inv(s) && OwningThread(w) && Truthful(s.ledger)
    ensures Truthful(Run(w, s, steps).ledger)
  {
    forall l, pid, c | Truthful(l) ensures Truthful(Make(w, l, pid, c)) { MakeTruthful(w, l, pid, c); }
    forall l, pid, e | Truthful(l) ensures Truthful(ReadRoots(l, pid, e)) { ReadTruthful(l, pid, e); }
    RunKeeps(w, s, steps, l => Truthful(l));
  }

  lemma LegalRun(w: World, pid: nat, steps: seq<Step>)
    requires OwningThread(w)
    ensures Inv(Start(pid)) && Legal(Run(w, Start(pid), steps).ledger.trace)
    ensures PeeksAllowed(Run(w, Start(pid), steps).ledger)
  {
    StartInv(pid);
    RunTruthful(w, Start(pid), steps);
  }

  /** What holds of the guarded calls holds of the unguarded reads. */
  ghost predicate PeeksToo(l: Ledger) {
    && (forall i, k, e | 0 <= k < |l.peeks| && e == l.peeks[k].env && 0 <= i < |l.trace| && i < l.peeks[k].at
          && Concerns(l.trace, i, e) :: !l.trace[i].outcome.Panicked? && !l.trace[i].call.CloseEnv?)
    && (forall k | 0 <= k < |l.peeks| :: CreatedBefore(l, k))
  }

  ghost predicate CreatedBefore(l: Ledger, k: nat)
    requires k < |l.peeks|
  {
    exists i :: 0 <= i < |l.trace| && i < l.peeks[k].at
      && l.trace[i] == Event(l.peeks[k].pid, CreateEnv(l.peeks[k].env), Returned(SUCCESS))
  }

  lemma AllowedPeeks(l: Ledger)
    requires Legal(l.trace) && PeeksAllowed(l)
    ensures PeeksToo(l)
  {
    forall i, k, e | 0 <= k < |l.peeks| && e == l.peeks[k].env && 0 <= i < |l.trace| && i < l.peeks[k].at
      && Concerns(l.trace, i, e)
      ensures !l.trace[i].outcome.Panicked? && !l.trace[i].call.CloseEnv?
    {
      if l.trace[i].outcome.Panicked? || l.trace[i].call.CloseEnv? {
        UnusableAfter(l.trace, i, l.peeks[k].at, e, l.peeks[k].pid);
      }
    }
    forall k | 0 <= k < |l.peeks| ensures CreatedBefore(l, k) {
      EnvsWereCreated(l.trace, l.peeks[k].at, l.peeks[k].env);
    }
  }

  /** Over every run of every process, whatever libmdbx answers and wherever it panics: an
      environment is closed only after each of its transactions has been ended; nothing is called
      on it, and it is not read, after a panic or a close; only the process that created it calls
      or reads anything on it; and it never has two transactions. */
  lemma EveryRunIsSafe(w: World, pid: nat, steps: seq<Step>)
    requires OwningThread(w)
    ensures Inv(Start(pid))
    ensures var l := Run(w, Start(pid), steps).ledger;
            && ClosesComeLast(l.trace) && SilentOnceBrokenOrClosed(l.trace)
            && OwnProcessOnly(l.trace) && OneAtATime(l.trace)
            && PeeksToo(l) && !l.faulted
  {
    LegalRun(w, pid, steps);
    AllowedPeeks(Run(w, Start(pid), steps).ledger);
    LegalIsSafe(Run(w, Start(pid), steps).ledger.trace);
  }

  lemma LegalIsSafe(trace: seq<Event>)
    requires Legal(trace)
    ensures ClosesComeLast(trace) && SilentOnceBrokenOrClosed(trace)
    ensures OwnProcessOnly(trace) && OneAtATime(trace)
  {
    forall j, k, e, t | 0 <= j < k < |trace| && Begins(trace[j], e, t)
        && trace[k].call == CloseEnv(e)
      ensures EndedBetween(trace, j, k, t)
    {
      ClosedAfterItsTransactions(trace, j, k, e, t);
    }
    forall i, k, e | 0 <= i < k < |trace| && Concerns(trace, i, e)
        && (trace[i].outcome.Panicked? || trace[i].call.CloseEnv?)
      ensures !Concerns(trace, k, e)
    {
      SilentAfterPanicOrClose(trace, i, k, e);
    }
    forall k, e | 0 <= k < |trace| && Concerns(trace, k, e)
      ensures exists i ::
        0 <= i < k && trace[i] == Event(trace[k].pid, CreateEnv(e), Returned(SUCCESS))
    {
      OnlyItsOwnProcess(trace, k, e);
    }
    forall j, k, e, t, u | 0 <= j < k < |trace| && Begins(trace[j], e, t) && Begins(trace[k], e, u)
      ensures EndedBetween(trace, j, k, t)
    {
      OneTransactionAtATime(trace, j, k, e, t, u);
    }
  }

  // -------------------------------------------------------------------------
  // What becomes of every native handle
  // -------------------------------------------------------------------------

  function TxnHolders(s: Proc, n: nat): set<nat> {
    set t | t in s.txns && s.txns[t].txn == Some(n)
  }

  function EnvHolders(s: Proc, n: nat): set<nat> {
    set e | e in s.envs && s.envs[e].env == Some(n)
  }

  /** Each native transaction ever begun is held by one handle, or ended, or given up once. */
  lemma TransactionsAreConserved(w: World, pid: nat, steps: seq<Step>, n: nat)
    requires OwningThread(w) && Inv(Start(pid)) && n in Run(w, Start(pid), steps).ledger.txns
    ensures var s := Run(w, Start(pid), steps);
            |TxnHolders(s, n)| + (if s.ledger.txns[n].ended then 1 else 0)
            + multiset(s.abandoned)[TxnPointer(n)] == 1
  {
    var s := Run(w, Start(pid), steps);
    assert TxnAccounted(s, n);
    if HoldsTxn(s, n) {
      var t :| t in s.txns && s.txns[t].txn == Some(n);
      assert TxnNative(s, t);
      SoleTxn(s, t);
      assert TxnHolders(s, n) == {t};
    } else {
      assert TxnHolders(s, n) == {};
    }
  }

  /** So is each native environment, but for one whose own close panicked, which is dropped. */
  lemma EnvironmentsAreConserved(w: World, pid: nat, steps: seq<Step>, n: nat)
    requires OwningThread(w) && Inv(Start(pid)) && n in Run(w, Start(pid), steps).ledger.envs
    ensures var s := Run(w, Start(pid), steps);
            var status := s.ledger.envs[n].status;
            |EnvHolders(s, n)| + (if status.Closed? || status.Lost? then 1 else 0)
            + multiset(s.abandoned)[EnvPointer(n)] == 1
  {
    var s := Run(w, Start(pid), steps);
    assert EnvAccounted(s, n);
    if HoldsEnv(s, n) {
      var e :| e in s.envs && s.envs[e].env == Some(n);
      assert EnvNative(s, e);
      SoleEnv(s, e);
      assert EnvHolders(s, n) == {e};
    } else {
      assert EnvHolders(s, n) == {};
    }
  }

  /** While a transaction is running its environment is neither closed nor lost. */
  predicate OpenForRunning(l: Ledger) {
    forall t :: t in l.txns && !l.txns[t].ended ==> StillOpen(l, l.txns[t].env)
  }

  predicate StillOpen(l: Ledger, e: nat) {
    e in l.envs && (l.envs[e].status.Usable? || l.envs[e].status.Broken?)
  }

  predicate Guarding(l: Ledger) { l.faulted || OpenForRunning(l) }

  lemma MakeGuarding(w: World, l: Ledger, pid: nat, c: Call)
    requires Guarding(l)
    ensures Guarding(Make(w, l, pid, c))
  {}

  lemma RunGuarding(w: World, pid: nat, steps: seq<Step>)
    requires OwningThread(w) && Inv(Start(pid))
    ensures OpenForRunning(Run(w, Start(pid), steps).ledger)
  {
    forall l, pid, c | Guarding(l) ensures Guarding(Make(w, l, pid, c)) { MakeGuarding(w, l, pid, c); }
    forall l, pid, e | Guarding(l) ensures Guarding(ReadRoots(l, pid, e)) {}
    RunKeeps(w, Start(pid), steps, l => Guarding(l));
  }

  /** A transaction is given up only with its environment broken, or another process's and sound. */
  lemma GivenUpForCause(w: World, pid: nat, steps: seq<Step>, n: nat)
    requires OwningThread(w) && Inv(Start(pid))
    requires TxnPointer(n) in Run(w, Start(pid), steps).abandoned
    ensures var s := Run(w, Start(pid), steps);
            && n in s.ledger.txns && !s.ledger.txns[n].ended
            && s.ledger.txns[n].env in s.ledger.envs
            && var e := s.ledger.envs[s.ledger.txns[n].env];
               e.status.Broken? || (e.status.Usable? && e.pid != s.pid)
  {
    RunGuarding(w, pid, steps);
    var s := Run(w, Start(pid), steps);
    assert multiset(s.abandoned)[TxnPointer(n)] > 0;
    assert TxnAccounted(s, n);
  }

  lemma CloseOnlyAdds(w: World, s: Proc, e: nat, propagate: bool)
    requires e in s.envs
    ensures s.abandoned <= CloseHandle(w, s, e, propagate).proc.abandoned
  {}

  lemma DetachOnlyAdds(w: World, s: Proc, e: nat)
    requires Inv(s) && e in s.envs
    ensures NoDangling(s) && s.abandoned <= DetachTxns(w, s, e).abandoned
  {
    DetachForm(w, s, e);
  }

  lemma DetachCloseAdds(w: World, s: Proc, e: nat, propagate: bool)
    requires Inv(s) && e in s.envs
    ensures NoDangling(s) && e in DetachTxns(w, s, e).envs
    ensures s.abandoned <= CloseHandle(w, DetachTxns(w, s, e), e, propagate).proc.abandoned
  {
    DetachOnlyAdds(w, s, e);
    CloseOnlyAdds(w, DetachTxns(w, s, e), e, propagate);
  }

  lemma OpenOnlyAdds(w: World, s: Proc, key: string, found: Store)
    requires forall e :: e in s.openEnvs ==> e in s.envs
    ensures s.abandoned <= OpenStep(w, s, key, found).proc.abandoned
  {}

  lemma FinishOnlyAdds(w: World, s: Proc, t: nat, commit: bool)
    ensures s.abandoned <= FinishStep(w, s, t, commit).proc.abandoned
  {}

  lemma AbortOnlyAdds(w: World, s: Proc, t: nat)
    ensures s.abandoned <= AbortStep(w, s, t).proc.abandoned
  {
    FinishOnlyAdds(w, s, t, false);
  }

  lemma FinalizeOnlyAdds(w: World, s: Proc, t: nat)
    ensures s.abandoned <= FinalizeTxnStep(w, s, t).abandoned
  {}

  lemma BeginOnlyAdds(w: World, s: Proc, e: nat, write: bool)
    ensures s.abandoned <= BeginStep(w, s, e, write).proc.abandoned
  {}

  lemma OpsOnlyAdd(w: World, s: Proc, n: nat, b: bool, next: Store)
    ensures s.abandoned <= EnvOpStep(w, s, n, b).proc.abandoned
    ensures s.abandoned <= TxnStatStep(w, s, n).proc.abandoned
    ensures s.abandoned <= TxnOpStep(w, s, n, next).proc.abandoned
  {}

  lemma StepOnlyAdds(w: World, s: Proc, step: Step)
    requires Inv(s) && NoDangling(s)
    ensures s.abandoned <= Do(w, s, step).proc.abandoned
  {
    match step
    case Open(key, found) => OpenOnlyAdds(w, s, key, found);
    case Close(e) =>
      if e in s.envs {
        DetachOnlyAdds(w, s, e);
        CloseOnlyAdds(w, s, e, true);
        DetachCloseAdds(w, s, e, true);
      }
    case Begin(e, write) => BeginOnlyAdds(w, s, e, write);
    case Commit(t) => FinishOnlyAdds(w, s, t, true);
    case Abort(t) => AbortOnlyAdds(w, s, t);
    case EnvOp(e, inTxn) => OpsOnlyAdd(w, s, e, inTxn, EMPTY_STORE);
    case TxnStat(t) => OpsOnlyAdd(w, s, t, true, EMPTY_STORE);
    case TxnOp(t, next) => OpsOnlyAdd(w, s, t, true, next);
    case FinalizeEnv(e) => if e in s.envs { DetachCloseAdds(w, s, e, false); }
    case FinalizeTxn(t) => FinalizeOnlyAdds(w, s, t);
    case Fork(child) =>
  }

  lemma {:induction false} RunOnlyAdds(w: World, s: Proc, steps: seq<Step>)
    requires Inv(s) && OwningThread(w)
    ensures s.abandoned <= Run(w, s, steps).abandoned
    decreases |steps|
  {
    if steps != [] {
      StepInv(w, s, steps[0]);
      StepOnlyAdds(w, s, steps[0]);
      RunOnlyAdds(w, Do(w, s, steps[0]).proc, steps[1..]);
    }
  }

  /** Once a transaction has been given up, its environment is never closed: not before, and not
      however the run goes on. */
  lemma GivenUpForGood(w: World, pid: nat, steps: seq<Step>, more: seq<Step>, n: nat, k: nat)
    requires OwningThread(w) && Inv(Start(pid))
    requires TxnPointer(n) in Run(w, Start(pid), steps).abandoned
    requires k < |Run(w, Run(w, Start(pid), steps), more).ledger.trace|
    ensures var l := Run(w, Run(w, Start(pid), steps), more).ledger;
            n in l.txns && l.trace[k].call != CloseEnv(l.txns[n].env)
  {
    var s := Run(w, Start(pid), steps);
    RunTruthful(w, Start(pid), steps);
    RunTruthful(w, s, more);
    RunOnlyAdds(w, s, more);
    StaysGivenUp(Run(w, s, more), n, k);
  }

  lemma StaysGivenUp(s: Proc, n: nat, k: nat)
    requires Inv(s) && Truthful(s.ledger) && TxnPointer(n) in s.abandoned && k < |s.ledger.trace|
    ensures n in s.ledger.txns && s.ledger.trace[k].call != CloseEnv(s.ledger.txns[n].env)
  {
    assert multiset(s.abandoned)[TxnPointer(n)] > 0;
    assert TxnAccounted(s, n);
    OpenWhileRunning(s.ledger.trace, k, n);
  }

  // -------------------------------------------------------------------------
  // Who may be used, and what is reported about it
  // -------------------------------------------------------------------------

  /** mdbx_txn_state() says "active" or "failed" exactly when the transaction may be used. */
  lemma ReportedUsableIffAccepted(s: Proc, t: nat, erroneous: bool)
    requires Inv(s)
    ensures TxnReport(s, t, erroneous) in {ActiveNow, FailedNow} <==> TxnRefusal(s, t).None?
    ensures TxnRefusal(s, t).None? ==> TxnOk(s.ledger, s.pid, s.txns[t].txn.value)
  {
    if t in s.txns {
      LinkedReport(s, t, erroneous);
      if TxnRefusal(s, t).None? { AcceptedTxn(s, t); }
    }
  }

  lemma LinkedReport(s: Proc, t: nat, erroneous: bool)
    requires t in s.txns && TxnLinked(s, t)
    ensures TxnReport(s, t, erroneous) in {ActiveNow, FailedNow} <==> TxnRefusal(s, t).None?
  {}

  /** Within one process, one canonical path is open at most once, across forks as well. */
  lemma OpensStayUnique(w: World, pid: nat, steps: seq<Step>, i: nat, j: nat)
    requires OwningThread(w) && Inv(Start(pid))
    requires var s := Run(w, Start(pid), steps); i < j < |s.openEnvs|
    ensures var s := Run(w, Start(pid), steps);
            && s.openEnvs[i] in s.envs && s.openEnvs[j] in s.envs
            && (s.envs[s.openEnvs[i]].key, s.envs[s.openEnvs[i]].pid)
               != (s.envs[s.openEnvs[j]].key, s.envs[s.openEnvs[j]].pid)
  {
    var s := Run(w, Start(pid), steps);
    assert s.openEnvs[i] in s.openEnvs && s.openEnvs[j] in s.openEnvs;
    assert !SameOpen(s, s.openEnvs[i], s.openEnvs[j]);
  }
}
