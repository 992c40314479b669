/** What mdbx_txn_state() says, and why an environment or a transaction is refused, over whole runs:
    each is told by the history of calls alone. */
module Reports {
  import opened Bytes
  import opened ReferenceModel
  import opened Native
  import opened History
  import opened Handles
  import opened Invariant
  import opened Preservation
  import opened Safety
  import opened Answers

  // -------------------------------------------------------------------------
  // The history of one transaction
  // -------------------------------------------------------------------------

  predicate Names(c: Call, n: nat) { (c.CommitTxn? || c.AbortTxn? || c.TxnCall?) && c.t == n }

  predicate Begin(v: Event, n: nat, write: bool) {
    v.call.BeginTxn? && v.call.t == n && v.call.write == write && v.outcome == Returned(SUCCESS)
  }

  predicate Commits(v: Event, n: nat) { v.call == CommitTxn(n) && v.outcome == Returned(SUCCESS) }
  predicate Strikes(v: Event, n: nat) { Names(v.call, n) && v.outcome.Panicked? }

  ghost predicate BegunIn(trace: seq<Event>, n: nat, write: bool) {
    exists i :: 0 <= i < |trace| && Begin(trace[i], n, write)
  }

  ghost predicate CommittedIn(trace: seq<Event>, n: nat) {
    exists i :: 0 <= i < |trace| && Commits(trace[i], n)
  }

  ghost predicate StruckIn(trace: seq<Event>, n: nat) {
    exists i :: 0 <= i < |trace| && Strikes(trace[i], n)
  }

  lemma InLast(trace: seq<Event>, v: Event, n: nat, write: bool)
    ensures BegunIn(trace + [v], n, write) <==> BegunIn(trace, n, write) || Begin(v, n, write)
    ensures CommittedIn(trace + [v], n) <==> CommittedIn(trace, n) || Commits(v, n)
    ensures StruckIn(trace + [v], n) <==> StruckIn(trace, n) || Strikes(v, n)
  {
    var r := trace + [v];
    assert r[|trace|] == v;
    assert forall i :: 0 <= i < |trace| ==> r[i] == trace[i];
  }

  /** The number a handle's native transaction has from its begin on, kept when it is let go of. */
  function NativeOf(t: nat): nat { t + 1 }

  /** A handle is the memory of what libmdbx was asked about its transaction. */
  ghost predicate Remembered(h: TxnHandle, t: nat, trace: seq<Event>) {
    && BegunIn(trace, NativeOf(t), h.write)
    && (h.txn.Some? ==> h.txn.value == NativeOf(t))
    && (h.state.Committed? <==> CommittedIn(trace, NativeOf(t)))
    && (h.poisoned <==> StruckIn(trace, NativeOf(t)))
  }

  ghost predicate Remembers(s: Proc) {
    && (forall t :: t in s.txns ==> Remembered(s.txns[t], t, s.ledger.trace))
    && (forall t :: t in s.txns ==> s.txns[t].pid == s.pid || s.txns[t].pid in s.past)
    && (forall i, n: nat :: 0 <= i < |s.ledger.trace| && Names(s.ledger.trace[i].call, n) ==> n < s.unused)
  }

  // -------------------------------------------------------------------------
  // Every step remembers
  // -------------------------------------------------------------------------

  predicate Later(s: Proc, r: Proc) { r.pid == s.pid && r.past == s.past && s.unused <= r.unused }

  predicate Followed(h: TxnHandle, k: TxnHandle) {
    k.pid == h.pid && k.write == h.write && (k.txn.Some? ==> k.txn == h.txn)
  }

  /** Every handle that is left took notice of a call. */
  predicate Noticed(s: Proc, r: Proc, v: Event) {
    forall t :: t in r.txns ==>
      && t in s.txns && Followed(s.txns[t], r.txns[t])
      && (r.txns[t].state.Committed? <==> s.txns[t].state.Committed? || Commits(v, NativeOf(t)))
      && (r.txns[t].poisoned <==> s.txns[t].poisoned || Strikes(v, NativeOf(t)))
  }

  lemma KeepCall(s: Proc, r: Proc, v: Event)
    requires Remembers(s) && Later(s, r) && r.ledger.trace == s.ledger.trace + [v]
    requires forall n: nat :: Names(v.call, n) ==> n < r.unused
    requires Noticed(s, r, v)
    ensures Remembers(r)
  {
    forall t | t in r.txns ensures Remembered(r.txns[t], t, r.ledger.trace) {
      InLast(s.ledger.trace, v, NativeOf(t), r.txns[t].write);
    }
  }

  /** No call was made, and no handle changed in a way that calls change it. */
  lemma KeepSilent(s: Proc, r: Proc)
    requires Remembers(s) && Later(s, r) && r.ledger.trace == s.ledger.trace
    requires forall t :: t in r.txns ==>
               && t in s.txns && Followed(s.txns[t], r.txns[t])
               && (r.txns[t].state.Committed? <==> s.txns[t].state.Committed?)
               && r.txns[t].poisoned == s.txns[t].poisoned
    ensures Remembers(r)
  {}

  /** A call about an environment alone. */
  predicate EnvOnly(c: Call) { c.CreateEnv? || c.OpenEnv? || c.CloseEnv? || c.EnvCall? }

  lemma KeepEnvOnly(w: World, s: Proc, r: Proc, c: Call)
    requires Remembers(s) && Later(s, r) && r.txns == s.txns && EnvOnly(c) && Asked(w, s, r, c)
    ensures Remembers(r)
  {
    KeepCall(s, r, Event(s.pid, c, Answer(w, s.ledger, c)));
  }

  /** Creating and opening an environment, and perhaps closing it again. */
  lemma KeepMade(w: World, s: Proc, n: nat, found: Store)
    requires Remembers(s)
    ensures var made := s.(unused := s.unused + 2, ledger := Made(w, s, n, found));
            Remembers(made) && Remembers(made.(ledger := Make(w, made.ledger, s.pid, CloseEnv(n))))
  {
    var created := s.(unused := s.unused + 2, ledger := Make(w, s.ledger, s.pid, CreateEnv(n)));
    var made := created.(ledger := Made(w, s, n, found));
    KeepEnvOnly(w, s, created, CreateEnv(n));
    KeepEnvOnly(w, created, made, OpenEnv(n, found));
    KeepEnvOnly(w, made, made.(ledger := Make(w, made.ledger, s.pid, CloseEnv(n))), CloseEnv(n));
  }

  lemma KeepNotOpened(w: World, s: Proc, r: Proc, n: nat, found: Store)
    requires Remembers(s) && NotOpened(s, r) && OpenedThenClosed(w, s, r, n, found)
    ensures Remembers(r)
  {
    var made := s.(unused := s.unused + 2, ledger := Made(w, s, n, found));
    KeepMade(w, s, n, found);
    if r.ledger == made.ledger {
      KeepSilent(made, r);
    } else {
      KeepSilent(made.(ledger := Make(w, made.ledger, s.pid, CloseEnv(n))), r);
    }
  }

  lemma KeepOpened(w: World, s: Proc, r: Proc, key: string, found: Store)
    requires Remembers(s) && OpenedAs(w, s, r, key, found)
    ensures Remembers(r)
  {
    KeepMade(w, s, s.unused + 1, found);
    KeepSilent(s.(unused := s.unused + 2, ledger := Made(w, s, s.unused + 1, found)), r);
  }

  lemma KeepOpen(w: World, s: Proc, key: string, found: Store)
    requires Inv(s) && NoDangling(s) && Remembers(s)
    ensures Remembers(OpenStep(w, s, key, found).proc)
  {
    OpenAnswers(w, s, key, found);
    var r, n := OpenStep(w, s, key, found), s.unused + 1;
    if r.reply.Opened? {
      KeepOpened(w, s, r.proc, key, found);
    } else if !r.reply.Refused? {
      if Answer(w, s.ledger, CreateEnv(n)) == Returned(SUCCESS) {
        KeepNotOpened(w, s, r.proc, n, found);
      } else {
        KeepEnvOnly(w, s, r.proc, CreateEnv(n));
      }
    }
  }

  lemma KeepBegin(w: World, s: Proc, e: nat, write: bool)
    requires Inv(s) && Remembers(s)
    ensures Remembers(BeginStep(w, s, e, write).proc)
  {
    EnvRefusals(s, e);
    if EnvRefusal(s, e).None? {
      BeginAnswers(w, s, e, write);
      var r := BeginStep(w, s, e, write).proc;
      if r != s { KeepBegun(w, s, r, e, write); }
    }
  }

  lemma KeepBegun(w: World, s: Proc, r: Proc, e: nat, write: bool)
    requires Remembers(s) && e in s.envs && s.envs[e].env.Some?
    requires s.envs[e].env.value in s.ledger.envs
    requires var c := BeginTxn(EnvOf(s, e), s.unused + 1, write);
             && Asked(w, s, r, c)
             && if Answer(w, s.ledger, c) == Returned(SUCCESS) then BegunAs(s, r, e, write)
                else NotBegun(s, r, e, Answer(w, s.ledger, c).Panicked?)
    ensures Remembers(r)
  {
    var c := BeginTxn(EnvOf(s, e), s.unused + 1, write);
    var v := Event(s.pid, c, Answer(w, s.ledger, c));
    if v.outcome == Returned(SUCCESS) {
      forall t | t in r.txns ensures Remembered(r.txns[t], t, r.ledger.trace) {
        InLast(s.ledger.trace, v, NativeOf(t), r.txns[t].write);
        if t == s.unused { NoneBefore(s, NativeOf(t)); }
      }
    } else {
      KeepCall(s, r, v);
    }
  }

  lemma NoneBefore(s: Proc, n: nat)
    requires Remembers(s) && s.unused <= n
    ensures !CommittedIn(s.ledger.trace, n) && !StruckIn(s.ledger.trace, n)
  {
    forall i | 0 <= i < |s.ledger.trace|
      ensures !Commits(s.ledger.trace[i], n) && !Strikes(s.ledger.trace[i], n)
    {
      assert !Names(s.ledger.trace[i].call, n);
    }
  }

  /** A call that names the transaction `t` holds, which takes notice. */
  lemma KeepNaming(s: Proc, r: Proc, t: nat, v: Event)
    requires Remembers(s) && Numbered(s) && Later(s, r) && r.ledger.trace == s.ledger.trace + [v]
    requires t in s.txns && s.txns[t].txn.Some? && Names(v.call, s.txns[t].txn.value)
    requires s.txns[t].txn.value in s.ledger.txns && !s.txns[t].state.Committed?
    requires t in r.txns && r.txns == s.txns[t := r.txns[t]] && Followed(s.txns[t], r.txns[t])
    requires r.txns[t].state.Committed? <==> Commits(v, s.txns[t].txn.value)
    requires r.txns[t].poisoned <==> s.txns[t].poisoned || v.outcome.Panicked?
    ensures Remembers(r)
  {
    KeepCall(s, r, v);
  }

  lemma KeepFinish(w: World, s: Proc, t: nat, commit: bool)
    requires Inv(s) && Remembers(s)
    ensures Remembers(FinishStep(w, s, t, commit).proc)
  {
    TxnRefusals(s, t);
    if TxnRefusal(s, t).None? {
      FinishAnswers(w, s, t, commit);
      assert TxnLinked(s, t);
      var c := if commit then CommitTxn(TxnOf(s, t)) else AbortTxn(TxnOf(s, t));
      KeepNaming(s, FinishStep(w, s, t, commit).proc, t, Event(s.pid, c, Answer(w, s.ledger, c)));
    }
  }

  lemma KeepAbort(w: World, s: Proc, t: nat)
    requires Inv(s) && Remembers(s)
    ensures Remembers(AbortStep(w, s, t).proc)
  {
    AbortAnswers(w, s, t);
    if OwnTxn(s, t) {
      if TxnOk(s.ledger, s.pid, TxnOf(s, t)) {
        KeepFinish(w, s, t, false);
      } else {
        TxnRefusals(s, t);
        assert TxnLinked(s, t);
        KeepGivenUp(s, AbortStep(w, s, t).proc, t);
      }
    }
  }

  lemma KeepGivenUp(s: Proc, r: Proc, t: nat)
    requires Remembers(s) && Later(s, r) && r.ledger == s.ledger
    requires t in s.txns && s.txns[t].state.Active?
    requires r.txns == s.txns[t := s.txns[t].(txn := None, owner := None, state := Aborted)]
    ensures Remembers(r)
  {
    KeepSilent(s, r);
  }

  lemma KeepOps(w: World, s: Proc, t: nat, next: Store)
    requires Inv(s) && Remembers(s)
    ensures Remembers(TxnOpStep(w, s, t, next).proc)
    ensures Remembers(TxnStatStep(w, s, t).proc)
  {
    TxnRefusals(s, t);
    if TxnRefusal(s, t).None? {
      OperationAnswers(w, s, t, next);
      StatAnswers(w, s, t);
      assert TxnLinked(s, t);
      var n := TxnOf(s, t);
      var c, d := TxnCall(n, next), EnvCall(s.ledger.txns[n].env, Some(n));
      KeepNaming(s, TxnOpStep(w, s, t, next).proc, t, Event(s.pid, c, Answer(w, s.ledger, c)));
      KeepEnvOnly(w, s, TxnStatStep(w, s, t).proc, d);
    }
  }

  lemma KeepEnvOp(w: World, s: Proc, e: nat, inTxn: bool)
    requires Inv(s) && Remembers(s)
    ensures Remembers(EnvOpStep(w, s, e, inTxn).proc)
  {
    EnvRefusals(s, e);
    if EnvRefusal(s, e).None? {
      var r, m := EnvOpStep(w, s, e, inTxn).proc, EnvOf(s, e);
      EnvOpAnswers(w, s, e, inTxn);
      var under: Option<nat> :|
        Asked(w, s, r, EnvCall(m, under))
        && OnlyStruck(s, r, e, Answer(w, s.ledger, EnvCall(m, under)).Panicked?);
      KeepEnvOnly(w, s, r, EnvCall(m, under));
    }
  }

  /** A transaction ended by a finalizer, or with its environment. */
  lemma KeepRelinquished(w: World, s: Proc, r: Proc, t: nat, mayCall: bool)
    requires Inv(s) && Remembers(s) && t in s.txns && s.txns[t].txn.Some?
    requires Relinquished(w, s, r, t, mayCall)
    requires r.txns == s.txns[t := Over(w, s, t, mayCall)] || r.txns == s.txns - {t}
    ensures Remembers(r)
  {
    assert TxnLinked(s, t) && TxnNative(s, t);
    if mayCall {
      KeepAborted(w, s, r, t);
    } else {
      KeepUnasked(w, s, r, t);
    }
  }

  lemma KeepUnasked(w: World, s: Proc, r: Proc, t: nat)
    requires Remembers(s) && t in s.txns && s.txns[t].txn.Some? && s.txns[t].state.Active?
    requires Relinquished(w, s, r, t, false)
    requires r.txns == s.txns[t := Over(w, s, t, false)] || r.txns == s.txns - {t}
    ensures Remembers(r)
  {
    KeepSilent(s, r);
  }

  lemma KeepAborted(w: World, s: Proc, r: Proc, t: nat)
    requires Remembers(s) && t in s.txns && s.txns[t].txn.Some? && s.txns[t].state.Active?
    requires s.txns[t].txn.value < s.unused && Relinquished(w, s, r, t, true)
    requires r.txns == s.txns[t := Over(w, s, t, true)] || r.txns == s.txns - {t}
    ensures Remembers(r)
  {
    var c := AbortTxn(TxnOf(s, t));
    var v := Event(s.pid, c, Answer(w, s.ledger, c));
    AbortNoticed(w, s, r, t, v);
    KeepCall(s, r, v);
  }

  lemma AbortNoticed(w: World, s: Proc, r: Proc, t: nat, v: Event)
    requires t in s.txns && s.txns[t].txn == Some(NativeOf(t)) && s.txns[t].state.Active?
    requires v == Event(s.pid, AbortTxn(NativeOf(t)), Answer(w, s.ledger, AbortTxn(NativeOf(t))))
    requires r.txns == s.txns[t := Over(w, s, t, true)] || r.txns == s.txns - {t}
    ensures Noticed(s, r, v)
  {}

  lemma KeepDetach(w: World, s: Proc, e: nat)
    requires Inv(s) && Remembers(s) && e in s.envs
    ensures NoDangling(s) && e in DetachTxns(w, s, e).envs && Remembers(DetachTxns(w, s, e))
  {
    DetachAnswers(w, s, e);
    if s.envs[e].live != [] {
      KeepRelinquished(w, s, DetachTxns(w, s, e), s.envs[e].live[0], UsableHandle(s, s.envs[e]));
    }
  }

  lemma KeepCloseHandle(w: World, s: Proc, e: nat, propagate: bool)
    requires e in s.envs && Remembers(s)
    ensures Remembers(CloseHandle(w, s, e, propagate).proc)
  {
    var r := CloseHandle(w, s, e, propagate).proc;
    if UsableHandle(s, s.envs[e]) {
      KeepEnvOnly(w, s, r, CloseEnv(EnvOf(s, e)));
    } else {
      KeepSilent(s, r);
    }
  }

  lemma KeepClose(w: World, s: Proc, e: nat)
    requires Inv(s) && NoDangling(s) && Remembers(s)
    ensures Remembers(CloseStep(w, s, e).proc)
  {
    if e in s.envs {
      KeepDetach(w, s, e);
      KeepCloseHandle(w, s, e, true);
      KeepCloseHandle(w, DetachTxns(w, s, e), e, true);
    }
  }

  lemma KeepFinalizeEnv(w: World, s: Proc, e: nat)
    requires Inv(s) && NoDangling(s) && Remembers(s)
    ensures Remembers(FinalizeEnvStep(w, s, e))
  {
    if e in s.envs {
      KeepDetach(w, s, e);
      KeepCloseHandle(w, DetachTxns(w, s, e), e, false);
    }
  }

  lemma KeepFinalizeTxn(w: World, s: Proc, t: nat)
    requires Inv(s) && OwningThread(w) && Remembers(s)
    ensures Remembers(FinalizeTxnStep(w, s, t))
  {
    if t in s.txns {
      FinalizeTxnAnswers(w, s, t);
      if s.txns[t].txn.Some? {
        var mayCall := s.txns[t].pid == s.pid && TxnOk(s.ledger, s.pid, TxnOf(s, t));
        KeepRelinquished(w, s, FinalizeTxnStep(w, s, t), t, mayCall);
      } else {
        KeepSilent(s, DeleteTxn(s, t));
      }
    }
  }

  lemma KeepStep(w: World, s: Proc, step: Step)
    requires Inv(s) && OwningThread(w) && NoDangling(s) && Remembers(s)
    ensures Remembers(Do(w, s, step).proc)
  {
    match step
    case Open(key, found) => KeepOpen(w, s, key, found);
    case Close(e) => KeepClose(w, s, e);
    case Begin(e, write) => KeepBegin(w, s, e, write);
    case Commit(t) => KeepFinish(w, s, t, true);
    case Abort(t) => KeepAbort(w, s, t);
    case EnvOp(e, inTxn) => KeepEnvOp(w, s, e, inTxn);
    case TxnStat(t) => KeepOps(w, s, t, EMPTY_STORE);
    case TxnOp(t, next) => KeepOps(w, s, t, next);
    case FinalizeEnv(e) => KeepFinalizeEnv(w, s, e);
    case FinalizeTxn(t) => KeepFinalizeTxn(w, s, t);
    case Fork(child) =>
  }

  lemma {:induction false} RunRemembers(w: World, s: Proc, steps: seq<Step>)
    requires Inv(s) && OwningThread(w) && Remembers(s)
    ensures Remembers(Run(w, s, steps))
    decreases |steps|
  {
    if steps != [] {
      StepInv(w, s, steps[0]);
      KeepStep(w, s, steps[0]);
      RunRemembers(w, Do(w, s, steps[0]).proc, steps[1..]);
    }
  }

  // -------------------------------------------------------------------------
  // What is reported
  // -------------------------------------------------------------------------

  ghost predicate EndedIn(trace: seq<Event>, n: nat) {
    exists i :: 0 <= i < |trace| && Ends(trace[i], n)
  }

  /** Ended by libmdbx, or given up. */
  ghost predicate IsOver(s: Proc, n: nat) {
    EndedIn(s.ledger.trace, n) || TxnPointer(n) in s.abandoned
  }

  /** libmdbx panicked in a call that concerned the environment `n` was begun on. */
  ghost predicate BrokenUnder(trace: seq<Event>, n: nat) {
    exists i, j, e ::
      && 0 <= j < |trace| && Begins(trace[j], e, n)
      && 0 <= i < |trace| && Concerns(trace, i, e) && trace[i].outcome.Panicked?
  }

  /** What the state of a transaction of this process says, told by the history: "committed" that
      libmdbx was asked to commit it and said it had; "aborted" that it is over in any other way;
      "poisoned" that it is not over, but libmdbx panicked on its environment. Any other can still
      be used, and has failed exactly if libmdbx marked it so. */
  ghost predicate Tells(s: Proc, t: nat, erroneous: bool) {
    var trace, n := s.ledger.trace, NativeOf(t);
    var report := TxnReport(s, t, erroneous);
    && (report == CommittedNow <==> CommittedIn(trace, n))
    && (report == AbortedNow <==> IsOver(s, n) && !CommittedIn(trace, n))
    && (report == PoisonedNow <==> !IsOver(s, n) && BrokenUnder(trace, n))
    && (report == FailedNow <==> !IsOver(s, n) && !BrokenUnder(trace, n) && erroneous)
    && (report == ActiveNow <==> !IsOver(s, n) && !BrokenUnder(trace, n) && !erroneous)
  }

  /** The same, as the ledger has it. */
  lemma LedgerTells(s: Proc, t: nat, erroneous: bool)
    requires Inv(s) && Remembers(s) && t in s.txns && s.txns[t].pid == s.pid
    requires NativeOf(t) in s.ledger.txns && OpenForRunning(s.ledger)
    ensures s.ledger.txns[NativeOf(t)].env in s.ledger.envs
    ensures var n := NativeOf(t);
            var over := s.ledger.txns[n].ended || TxnPointer(n) in s.abandoned;
            var broken := s.ledger.envs[s.ledger.txns[n].env].status.Broken?;
            var report := TxnReport(s, t, erroneous);
            && (report == CommittedNow <==> CommittedIn(s.ledger.trace, n))
            && (report == AbortedNow <==> over && !CommittedIn(s.ledger.trace, n))
            && (report == PoisonedNow <==> !over && broken)
            && (report == FailedNow <==> !over && !broken && erroneous)
            && (report == ActiveNow <==> !over && !broken && !erroneous)
  {
    var n := NativeOf(t);
    assert TxnLinked(s, t) && TxnNative(s, t);
    assert TxnAccounted(s, n);
    OnlyHolder(s, t);
    assert TxnPointer(n) in s.abandoned <==> multiset(s.abandoned)[TxnPointer(n)] > 0;
    if s.txns[t].txn.Some? { assert EnvNative(s, s.txns[t].owner.value); }
  }

  lemma OnlyHolder(s: Proc, t: nat)
    requires Remembers(s) && t in s.txns
    ensures HoldsTxn(s, NativeOf(t)) <==> s.txns[t].txn.Some?
  {
    if HoldsTxn(s, NativeOf(t)) {
      var u :| u in s.txns && s.txns[u].txn == Some(NativeOf(t));
      assert Remembered(s.txns[u], u, s.ledger.trace);
    }
  }

  lemma EndedIsEnded(trace: seq<Event>, j: nat, n: nat, e: nat)
    requires Legal(trace) && j < |trace| && Begins(trace[j], e, n)
    ensures n in Replay(trace).txns && Replay(trace).txns[n].env == e
    ensures Replay(trace).txns[n].ended <==> EndedIn(trace, n)
  {
    assert trace[..|trace|] == trace;
    LifeOfTxn(trace, j, |trace|, e, n);
    forall i | 0 <= i <= j ensures !Ends(trace[i], n) { NotEndedBefore(trace, i, j, e, n); }
  }

  lemma NotEndedBefore(trace: seq<Event>, i: nat, j: nat, e: nat, n: nat)
    requires Legal(trace) && i <= j < |trace| && Begins(trace[j], e, n)
    ensures !Ends(trace[i], n)
  {
    LegalAt(trace, j);
    if i < j && Ends(trace[i], n) {
      LegalAt(trace, i);
      TxnsWereBegun(trace, i, n);
      var d := Replay(trace[..i]).txns[n].env;
      var k :| 0 <= k < i && Begins(trace[k], d, n);
      LifeOfTxn(trace, k, j, d, n);
    }
  }

  lemma BrokenIsBroken(trace: seq<Event>, n: nat)
    requires Legal(trace) && n in Replay(trace).txns && !Replay(trace).txns[n].ended
    requires Replay(trace).txns[n].env in Replay(trace).envs
    requires OpenForRunning(Replay(trace))
    ensures Replay(trace).envs[Replay(trace).txns[n].env].status.Broken? <==> BrokenUnder(trace, n)
  {
    var e := Replay(trace).txns[n].env;
    assert trace[..|trace|] == trace;
    TxnsWereBegun(trace, |trace|, n);
    StatusIs(trace, |trace|, e);
    if BrokenUnder(trace, n) {
      var i, j, d :|
        && 0 <= j < |trace| && Begins(trace[j], d, n)
        && 0 <= i < |trace| && Concerns(trace, i, d) && trace[i].outcome.Panicked?;
      LifeOfTxn(trace, j, |trace|, d, n);
      assert Hurts(trace, i, e);
    } else {
      var j :| 0 <= j < |trace| && Begins(trace[j], e, n);
      forall i | 0 <= i < |trace| ensures !Breaks(trace, i, e) {}
    }
  }

  lemma StartRemembers(pid: nat)
    ensures Remembers(Start(pid))
  {}

  lemma RecordedTells(s: Proc, t: nat, erroneous: bool)
    requires Inv(s) && Remembers(s) && Truthful(s.ledger) && OpenForRunning(s.ledger)
    requires t in s.txns && s.txns[t].pid == s.pid
    ensures Tells(s, t, erroneous)
  {
    var trace, n := s.ledger.trace, NativeOf(t);
    assert Remembered(s.txns[t], t, trace);
    var j :| 0 <= j < |trace| && Begin(trace[j], n, s.txns[t].write);
    EndedIsEnded(trace, j, n, trace[j].call.e);
    LedgerTells(s, t, erroneous);
    if !Replay(trace).txns[n].ended { BrokenIsBroken(trace, n); }
  }

  /** Over every run, under any answers, panics and forks included. */
  lemma ReportIsHistory(w: World, pid: nat, steps: seq<Step>, t: nat, erroneous: bool)
    requires OwningThread(w) && Inv(Start(pid))
    ensures var s := Run(w, Start(pid), steps);
            if t in s.txns && s.txns[t].pid == s.pid then Tells(s, t, erroneous)
            else TxnReport(s, t, erroneous) == InvalidHandle
  {
    StartRemembers(pid);
    RunRemembers(w, Start(pid), steps);
    RunTruthful(w, Start(pid), steps);
    RunGuarding(w, pid, steps);
    var s := Run(w, Start(pid), steps);
    if t in s.txns && s.txns[t].pid == s.pid { RecordedTells(s, t, erroneous); }
  }

  /** An environment this process holds is refused exactly after a call that concerned it panicked. */
  lemma RefusalIsHistory(w: World, pid: nat, steps: seq<Step>, e: nat)
    requires OwningThread(w) && Inv(Start(pid)) && OwnEnv(Run(w, Start(pid), steps), e)
    ensures var s := Run(w, Start(pid), steps);
            var broken := exists i :: 0 <= i < |s.ledger.trace| && Breaks(s.ledger.trace, i, EnvOf(s, e));
            EnvRefusal(s, e) == if broken then Some(PoisonedEnv) else None
  {
    var s := Run(w, Start(pid), steps);
    RunTruthful(w, Start(pid), steps);
    EnvRefusals(s, e);
    assert EnvNative(s, e);
    assert s.ledger.trace[..|s.ledger.trace|] == s.ledger.trace;
    StatusIs(s.ledger.trace, |s.ledger.trace|, EnvOf(s, e));
  }

  /** A child process may use nothing it inherited, finished transactions included. */
  lemma InheritedIsRefused(w: World, pid: nat, steps: seq<Step>, child: nat)
    requires OwningThread(w) && Inv(Start(pid))
    requires var s := Run(w, Start(pid), steps); child != s.pid && child !in s.past
    ensures NoDangling(Run(w, Start(pid), steps))
    ensures var r := Do(w, Run(w, Start(pid), steps), Fork(child)).proc;
            && r.pid == child
            && (forall e :: e in r.envs ==> EnvRefusal(r, e) == Some(ForeignEnv))
            && (forall t :: t in r.txns ==> TxnRefusal(r, t) == Some(ForeignTxn))
  {
    StartRemembers(pid);
    RunRemembers(w, Start(pid), steps);
    var s := Run(w, Start(pid), steps);
    InvNoDangling(s);
    InheritedIsForeign(s, child);
  }
}
