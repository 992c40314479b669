/** What each entry point answers, which call it makes for that, and what it leaves alone: stated
    of the native ledger, so that a caller's question ("is anything still running there?") and not
    a handle's field decides. */
module Answers {
  import opened Bytes
  import opened ReferenceModel
  import opened Native
  import opened Handles
  import opened Invariant
  import opened Preservation

  /** The one guarded call made from `s` to `r` was `c`. */
  predicate Asked(w: World, s: Proc, r: Proc, c: Call) {
    r.ledger.trace == s.ledger.trace + [Event(s.pid, c, Answer(w, s.ledger, c))]
  }

  /** Success, error and panic come back as themselves. */
  ghost predicate Plainly(reply: Reply, o: Outcome) {
    && (reply == Done <==> o == Returned(SUCCESS))
    && (reply == Panic <==> o.Panicked?)
    && (forall rc :: reply == Failed(rc) <==> o == Returned(rc) && rc != SUCCESS)
  }

  /** As Plainly, but that libmdbx calls a rollback "true". */
  ghost predicate Finally(reply: Reply, o: Outcome) {
    && (reply == Done <==> o == Returned(SUCCESS))
    && (reply == RolledBack <==> o == Returned(RESULT_TRUE))
    && (reply == Panic <==> o.Panicked?)
    && (forall rc :: reply == Failed(rc) <==> o == Returned(rc) && rc !in {SUCCESS, RESULT_TRUE})
  }

  /** The same process, `used` numbers further on. */
  predicate Onward(s: Proc, r: Proc, used: nat) {
    r.pid == s.pid && r.past == s.past && r.unused == s.unused + used
  }

  /** Handles of this process that hold something. */
  predicate OwnEnv(s: Proc, e: nat) { e in s.envs && s.envs[e].pid == s.pid && s.envs[e].env.Some? }
  predicate OwnTxn(s: Proc, t: nat) { t in s.txns && s.txns[t].pid == s.pid && s.txns[t].txn.Some? }

  function EnvOf(s: Proc, e: nat): nat
    requires e in s.envs && s.envs[e].env.Some?
  {
    s.envs[e].env.value
  }

  function TxnOf(s: Proc, t: nat): nat
    requires t in s.txns && s.txns[t].txn.Some?
  {
    s.txns[t].txn.value
  }

  // -------------------------------------------------------------------------
  // Refusals
  // -------------------------------------------------------------------------

  /** Why an environment is refused: it is another process's; it is closed; libmdbx broke it. */
  lemma EnvRefusals(s: Proc, e: nat)
    requires Inv(s)
    ensures EnvRefusal(s, e) == Some(ForeignEnv) <==> e in s.envs && s.envs[e].pid != s.pid
    ensures EnvRefusal(s, e) == Some(ClosedEnv) <==>
              e !in s.envs || (s.envs[e].pid == s.pid && s.envs[e].env.None?)
    ensures OwnEnv(s, e) ==> EnvOf(s, e) in s.ledger.envs
    ensures EnvRefusal(s, e) == Some(PoisonedEnv) <==>
              OwnEnv(s, e) && s.ledger.envs[EnvOf(s, e)].status.Broken?
    ensures EnvRefusal(s, e) == None <==> OwnEnv(s, e) && EnvOk(s.ledger, s.pid, EnvOf(s, e))
  {
    if e in s.envs { assert EnvNative(s, e); }
  }

  /** Why a transaction is refused. Under the invariant a held transaction's environment is open,
      so that reason is never given. */
  lemma TxnRefusals(s: Proc, t: nat)
    requires Inv(s)
    ensures TxnRefusal(s, t) == Some(NoTxn) <==> t !in s.txns
    ensures TxnRefusal(s, t) == Some(ForeignTxn) <==> t in s.txns && s.txns[t].pid != s.pid
    ensures TxnRefusal(s, t) == Some(PoisonedTxn) <==>
              t in s.txns && s.txns[t].pid == s.pid && s.txns[t].poisoned
    ensures forall state :: TxnRefusal(s, t) == Some(Finished(state)) <==>
              t in s.txns && s.txns[t].pid == s.pid && !s.txns[t].poisoned
              && s.txns[t].txn.None? && state == s.txns[t].state
    ensures OwnTxn(s, t) ==>
              TxnOf(s, t) in s.ledger.txns && s.ledger.txns[TxnOf(s, t)].env in s.ledger.envs
    ensures TxnRefusal(s, t) == Some(OwnerPoisoned) <==>
              OwnTxn(s, t) && !s.txns[t].poisoned
              && s.ledger.envs[s.ledger.txns[TxnOf(s, t)].env].status.Broken?
    ensures TxnRefusal(s, t) == None <==> OwnTxn(s, t) && TxnOk(s.ledger, s.pid, TxnOf(s, t))
    ensures TxnRefusal(s, t) != Some(OwnerClosed)
  {
    if t in s.txns {
      assert TxnLinked(s, t) && TxnNative(s, t);
      if s.txns[t].txn.Some? { assert EnvNative(s, s.txns[t].owner.value); }
    }
  }

  /** Nothing a refused operation was asked to do happens. */
  lemma RefusedDoesNothing(w: World, s: Proc, n: nat, b: bool, next: Store)
    ensures forall why :: EnvRefusal(s, n) == Some(why) ==>
              BeginStep(w, s, n, b) == Result(s, Refused(why))
              && EnvOpStep(w, s, n, b) == Result(s, Refused(why))
    ensures forall why :: TxnRefusal(s, n) == Some(why) ==>
              FinishStep(w, s, n, b) == Result(s, Refused(why))
              && TxnStatStep(w, s, n) == Result(s, Refused(why))
              && TxnOpStep(w, s, n, next) == Result(s, Refused(why))
  {}

  /** What a child process inherits, it may not use. */
  lemma InheritedIsForeign(s: Proc, child: nat)
    requires Inv(s) && child != s.pid && child !in s.past
    ensures ForkStep(s, child).pid == child
    ensures forall e :: e in s.envs ==> EnvRefusal(ForkStep(s, child), e) == Some(ForeignEnv)
    ensures forall t :: t in s.txns && (s.txns[t].pid == s.pid || s.txns[t].txn.Some?) ==>
              TxnRefusal(ForkStep(s, child), t) == Some(ForeignTxn)
  {
    forall t | t in s.txns && s.txns[t].txn.Some?
      ensures TxnRefusal(ForkStep(s, child), t) == Some(ForeignTxn)
    {
      assert TxnLinked(s, t);
    }
  }

  // -------------------------------------------------------------------------
  // Opening and closing
  // -------------------------------------------------------------------------

  /** Under the invariant an environment has a registered transaction exactly while a native one
      runs on it. */
  lemma LinkedIffRunning(s: Proc, e: nat)
    requires Inv(s) && OwnEnv(s, e) && EnvOk(s.ledger, s.pid, EnvOf(s, e))
    ensures s.envs[e].live == [] <==> Idle(s.ledger, EnvOf(s, e))
  {
    assert EnvLinked(s, e) && EnvNative(s, e);
    if s.envs[e].live == [] {
      IdleWhenUnlinked(s, e);
    } else {
      var t := s.envs[e].live[0];
      assert TxnLinked(s, t) && TxnNative(s, t);
    }
  }

  /** Closing a sound environment is refused, and touches nothing, exactly while a transaction is
      running on it. Otherwise it is the one native close, whose outcome is the answer, and the
      handle is let go of whatever that was. */
  lemma CloseAnswers(w: World, s: Proc, e: nat)
    requires Inv(s) && NoDangling(s) && OwnEnv(s, e) && EnvOk(s.ledger, s.pid, EnvOf(s, e))
    ensures var r := CloseStep(w, s, e);
            var c := CloseEnv(EnvOf(s, e));
            if !Idle(s.ledger, EnvOf(s, e)) then r == Result(s, Refused(TxnsStillOpen))
            else
              && Asked(w, s, r.proc, c) && Plainly(r.reply, Answer(w, s.ledger, c))
              && LetGo(s, r.proc, e) && r.proc.abandoned == s.abandoned
  {
    assert EnvNative(s, e);
    LinkedIffRunning(s, e);
  }

  /** Nothing but the hold on the environment, and its place in the registry, is gone. */
  ghost predicate LetGo(s: Proc, r: Proc, e: nat)
    requires e in s.envs
  {
    && r.txns == s.txns && Onward(s, r, 0)
    && e in r.envs && r.envs[e].env == None && r.envs[e].live == []
    && (forall d :: d in s.envs && d != e ==> d in r.envs && r.envs[d] == s.envs[d])
    && r.envs.Keys == s.envs.Keys
    && (forall d :: d in r.openEnvs <==> d in s.openEnvs && d != e)
  }

  /** A handle that is closed already, or gone, closes again without a word. */
  lemma CloseIsIdempotent(w: World, s: Proc, e: nat)
    requires Inv(s) && NoDangling(s) && (e in s.envs ==> s.envs[e].env.None?)
    ensures CloseStep(w, s, e) == Result(s, Done)
  {
    if e in s.envs {
      OwnersAreOpen(s);
      assert EnvLinked(s, e);
      if s.envs[e].poisoned { DetachNone(w, s, e); }
    }
  }

  lemma OwnersAreOpen(s: Proc)
    requires Linked(s)
    ensures forall t :: t in s.txns && s.txns[t].owner.Some? ==>
              s.txns[t].owner.value in s.envs && s.envs[s.txns[t].owner.value].env.Some?
  {
    forall t | t in s.txns && s.txns[t].owner.Some?
      ensures s.txns[t].owner.value in s.envs && s.envs[s.txns[t].owner.value].env.Some?
    {
      assert TxnLinked(s, t);
    }
  }

  /** Another process's environment: refused either way, without a call; the copy of the pointer is
      dropped unless a transaction was inherited with it. */
  lemma CloseElsewhere(w: World, s: Proc, e: nat)
    requires Inv(s) && OwningThread(w) && NoDangling(s)
    requires e in s.envs && s.envs[e].pid != s.pid && s.envs[e].env.Some?
    ensures var r := CloseStep(w, s, e);
            && r.proc.ledger == s.ledger
            && if s.envs[e].live != [] && !s.envs[e].poisoned
               then r == Result(s, Refused(TxnsStillOpen))
               else r.reply == Refused(ForeignEnv) && e in r.proc.envs && r.proc.envs[e].env == None
                    && e !in r.proc.openEnvs
  {
    DetachForm(w, s, e);
    if s.envs[e].live != [] { ReleaseElsewhere(w, s, e, s.envs[e].live[0]); }
  }

  lemma ReleaseElsewhere(w: World, s: Proc, e: nat, t: nat)
    requires e in s.envs && s.envs[e].pid != s.pid && s.envs[e].live == [t]
    requires t in s.txns && s.txns[t].txn.Some? && s.txns[t].owner == Some(e)
    ensures var r := Unlink(Release(w, s, t), t, Aborted);
            r.ledger == s.ledger && e in r.envs && r.envs[e] == s.envs[e].(live := [])
            && r.pid == s.pid && r.openEnvs == s.openEnvs
  {
    assert Without([t], t) == [];
  }

  /** What an open leaves when it fails, whether refused or thrown out by libmdbx: numbers used up,
      calls made, pointers given up; no handle and no registration. */
  predicate NotOpened(s: Proc, r: Proc) {
    r.envs == s.envs && r.txns == s.txns && r.openEnvs == s.openEnvs && Onward(s, r, 2)
  }

  /** A canonical path is refused exactly while this process has it open. Otherwise the environment
      is created and then opened; the first of the two that fails is the answer, and an environment
      created but not opened is closed again, or given up if libmdbx panicked. */
  lemma OpenAnswers(w: World, s: Proc, key: string, found: Store)
    requires Inv(s) && NoDangling(s)
    ensures var r := OpenStep(w, s, key, found);
            var n := s.unused + 1;
            var created := Make(w, s.ledger, s.pid, CreateEnv(n));
            var o, p := Answer(w, s.ledger, CreateEnv(n)), Answer(w, created, OpenEnv(n, found));
            if exists e :: e in s.openEnvs && s.envs[e].key == key && s.envs[e].pid == s.pid then
              r == Result(s, Refused(AlreadyOpen))
            else if o != Returned(SUCCESS) then
              && NotOpened(s, r.proc) && Plainly(r.reply, o)
              && Asked(w, s, r.proc, CreateEnv(n)) && r.proc.abandoned == s.abandoned
            else if p != Returned(SUCCESS) then
              && NotOpened(s, r.proc) && Plainly(r.reply, p)
              && OpenedThenClosed(w, s, r.proc, n, found)
            else
              r.reply == Opened(s.unused) && OpenedAs(w, s, r.proc, key, found)
  {
    NewNumber(s);
    if FindOpenEnv(s, key).None? { NewAnswers(w, s, key, found); }
  }

  lemma NewAnswers(w: World, s: Proc, key: string, found: Store)
    requires NoDangling(s) && FindOpenEnv(s, key).None?
    requires s.unused !in s.envs && s.unused !in s.openEnvs
    ensures var r := OpenStep(w, s, key, found);
            var n := s.unused + 1;
            var o := Answer(w, s.ledger, CreateEnv(n));
            var p := Answer(w, Make(w, s.ledger, s.pid, CreateEnv(n)), OpenEnv(n, found));
            if o != Returned(SUCCESS) then
              && NotOpened(s, r.proc) && Plainly(r.reply, o)
              && Asked(w, s, r.proc, CreateEnv(n)) && r.proc.abandoned == s.abandoned
            else if p != Returned(SUCCESS) then
              && NotOpened(s, r.proc) && Plainly(r.reply, p)
              && OpenedThenClosed(w, s, r.proc, n, found)
            else
              r.reply == Opened(s.unused) && OpenedAs(w, s, r.proc, key, found)
  {
    if Answer(w, s.ledger, CreateEnv(s.unused + 1)) == Returned(SUCCESS) {
      OpenForm(w, s, key, found);
      CreatedAnswers(w, s, key, found);
    } else {
      NotCreatedAnswers(w, s, key, found);
    }
  }

  lemma NotCreatedAnswers(w: World, s: Proc, key: string, found: Store)
    requires s.unused !in s.envs
    requires Answer(w, s.ledger, CreateEnv(s.unused + 1)) != Returned(SUCCESS)
    ensures var r := OpenNew(w, s, key, found);
            && NotOpened(s, r.proc) && Plainly(r.reply, Answer(w, s.ledger, CreateEnv(s.unused + 1)))
            && Asked(w, s, r.proc, CreateEnv(s.unused + 1)) && r.proc.abandoned == s.abandoned
  {}

  /** The ledger once environment `n` has been created and opened. */
  function Made(w: World, s: Proc, n: nat, found: Store): Ledger {
    Make(w, Make(w, s.ledger, s.pid, CreateEnv(n)), s.pid, OpenEnv(n, found))
  }

  predicate OpenedThenClosed(w: World, s: Proc, r: Proc, n: nat, found: Store) {
    var made := Made(w, s, n, found);
    if Answer(w, Make(w, s.ledger, s.pid, CreateEnv(n)), OpenEnv(n, found)).Panicked? then
      r.ledger == made && r.abandoned == s.abandoned + [EnvPointer(n)]
    else
      r.ledger == Make(w, made, s.pid, CloseEnv(n)) && r.abandoned == s.abandoned
  }

  /** One new handle, registered, sound, with nothing running, its list starts just read, and the
      store it was opened on. */
  predicate OpenedAs(w: World, s: Proc, r: Proc, key: string, found: Store) {
    var e, n := s.unused, s.unused + 1;
    var made := Made(w, s, n, found);
    && r.envs == s.envs[e := EnvHandle(Some(n), false, s.pid, key, [], w.roots(made.trace, n))]
    && r.openEnvs == s.openEnvs + [e] && r.txns == s.txns && r.abandoned == s.abandoned
    && Onward(s, r, 2)
    && r.ledger == ReadRoots(made, s.pid, n)
    && n in r.ledger.envs && r.ledger.envs[n] == NativeEnv(s.pid, Usable, found)
  }

  lemma CreatedAnswers(w: World, s: Proc, key: string, found: Store)
    requires s.unused !in s.envs && s.unused !in s.openEnvs
    requires Answer(w, s.ledger, CreateEnv(s.unused + 1)) == Returned(SUCCESS)
    ensures var r := OpenCreated(w, Adopted(w, s, key).(openEnvs := s.openEnvs), s.unused,
                                 s.unused + 1, found);
            var n := s.unused + 1;
            var p := Answer(w, Make(w, s.ledger, s.pid, CreateEnv(n)), OpenEnv(n, found));
            if p != Returned(SUCCESS) then
              NotOpened(s, r.proc) && Plainly(r.reply, p) && OpenedThenClosed(w, s, r.proc, n, found)
            else r.reply == Opened(s.unused) && OpenedAs(w, s, r.proc, key, found)
  {
    var a := Adopted(w, s, key).(openEnvs := s.openEnvs);
    if Answer(w, a.ledger, OpenEnv(s.unused + 1, found)) == Returned(SUCCESS) {
      OpenSucceeds(w, s, key, found);
    } else {
      OpenFails(w, s, key, found);
    }
  }

  lemma OpenSucceeds(w: World, s: Proc, key: string, found: Store)
    requires s.unused !in s.envs
    requires Answer(w, s.ledger, CreateEnv(s.unused + 1)) == Returned(SUCCESS)
    requires Answer(w, Make(w, s.ledger, s.pid, CreateEnv(s.unused + 1)), OpenEnv(s.unused + 1, found))
             == Returned(SUCCESS)
    ensures var r := OpenCreated(w, Adopted(w, s, key).(openEnvs := s.openEnvs), s.unused,
                                 s.unused + 1, found);
            r.reply == Opened(s.unused) && OpenedAs(w, s, r.proc, key, found)
  {
    var r := OpenCreated(w, Adopted(w, s, key).(openEnvs := s.openEnvs), s.unused, s.unused + 1,
                         found).proc;
    assert r.envs == s.envs[s.unused := r.envs[s.unused]];
  }

  lemma OpenFails(w: World, s: Proc, key: string, found: Store)
    requires s.unused !in s.envs && s.unused !in s.openEnvs
    requires Answer(w, s.ledger, CreateEnv(s.unused + 1)) == Returned(SUCCESS)
    requires Answer(w, Make(w, s.ledger, s.pid, CreateEnv(s.unused + 1)), OpenEnv(s.unused + 1, found))
             != Returned(SUCCESS)
    ensures var r := OpenCreated(w, Adopted(w, s, key).(openEnvs := s.openEnvs), s.unused,
                                 s.unused + 1, found);
            var n := s.unused + 1;
            && NotOpened(s, r.proc) && OpenedThenClosed(w, s, r.proc, n, found)
            && Plainly(r.reply, Answer(w, Make(w, s.ledger, s.pid, CreateEnv(n)), OpenEnv(n, found)))
  {
    OpenCreatedFails(w, Adopted(w, s, key).(openEnvs := s.openEnvs), s.unused, s.unused + 1, found);
    assert Adopted(w, s, key).envs - {s.unused} == s.envs;
  }

  lemma OpenCreatedFails(w: World, s: Proc, e: nat, n: nat, found: Store)
    requires e in s.envs && s.envs[e].env == Some(n) && UsableHandle(s, s.envs[e])
    requires e !in s.openEnvs && s.envs[e].roots == NO_ROOTS
    requires Answer(w, s.ledger, OpenEnv(n, found)) != Returned(SUCCESS)
    ensures var r := OpenCreated(w, s, e, n, found);
            var o := Answer(w, s.ledger, OpenEnv(n, found));
            var made := Make(w, s.ledger, s.pid, OpenEnv(n, found));
            && r.proc.envs == s.envs - {e} && r.proc.txns == s.txns && Onward(s, r.proc, 0)
            && r.proc.openEnvs == s.openEnvs && Plainly(r.reply, o)
            && r.proc.ledger == (if o.Panicked? then made else Make(w, made, s.pid, CloseEnv(n)))
            && r.proc.abandoned == if o.Panicked? then s.abandoned + [EnvPointer(n)] else s.abandoned
  {}

  // -------------------------------------------------------------------------
  // Transactions
  // -------------------------------------------------------------------------

  /** A begin is refused exactly while a transaction is running on the environment. Otherwise it is
      one native call; on success there is one new handle, active, holding what was begun, and on
      anything else there is none. */
  lemma BeginAnswers(w: World, s: Proc, e: nat, write: bool)
    requires Inv(s) && OwnEnv(s, e) && EnvOk(s.ledger, s.pid, EnvOf(s, e))
    ensures var r := BeginStep(w, s, e, write);
            var n := s.unused + 1;
            var c := BeginTxn(EnvOf(s, e), n, write);
            var o := Answer(w, s.ledger, c);
            if !Idle(s.ledger, EnvOf(s, e)) then r == Result(s, Refused(TxnOpen))
            else
              && Asked(w, s, r.proc, c)
              && if o == Returned(SUCCESS)
                 then r.reply == Begun(s.unused) && BegunAs(s, r.proc, e, write)
                 else Plainly(r.reply, o) && NotBegun(s, r.proc, e, o.Panicked?)
  {
    EnvRefusals(s, e);
    LinkedIffRunning(s, e);
    if s.envs[e].live == [] {
      BeginAllowed(s, e, write);
      BegunAnswers(w, s, e, write);
    }
  }

  predicate NotBegun(s: Proc, r: Proc, e: nat, panicked: bool)
    requires e in s.envs
  {
    && r.txns == s.txns && r.openEnvs == s.openEnvs && r.abandoned == s.abandoned && Onward(s, r, 2)
    && r.envs == s.envs[e := s.envs[e].(poisoned := s.envs[e].poisoned || panicked)]
  }

  /** The new handle and its place in the registry are all that changed. */
  predicate BegunAs(s: Proc, r: Proc, e: nat, write: bool)
    requires e in s.envs && s.envs[e].env.Some? && s.envs[e].env.value in s.ledger.envs
  {
    var t, n := s.unused, s.unused + 1;
    && r.txns == s.txns[t := TxnHandle(Some(n), Some(e), Active, write, false, s.pid)]
    && r.envs == s.envs[e := s.envs[e].(live := [t])]
    && r.openEnvs == s.openEnvs && r.abandoned == s.abandoned && Onward(s, r, 2)
    && n in r.ledger.txns
    && r.ledger.txns[n] == NativeTxn(EnvOf(s, e), write, false, s.ledger.envs[EnvOf(s, e)].data)
  }

  lemma BegunAnswers(w: World, s: Proc, e: nat, write: bool)
    requires EnvRefusal(s, e).None? && s.envs[e].live == [] && s.unused !in s.txns
    requires s.envs[e].env.value in s.ledger.envs
    ensures var r := BeginStep(w, s, e, write);
            var n := s.unused + 1;
            var c := BeginTxn(EnvOf(s, e), n, write);
            var o := Answer(w, s.ledger, c);
            && Asked(w, s, r.proc, c)
            && if o == Returned(SUCCESS)
               then r.reply == Begun(s.unused) && BegunAs(s, r.proc, e, write)
               else Plainly(r.reply, o) && NotBegun(s, r.proc, e, o.Panicked?)
  {
    BeginCallAnswers(w, AllocateTxn(s, e, write), e, s.unused, EnvOf(s, e), s.unused + 1);
    if Answer(w, s.ledger, BeginTxn(EnvOf(s, e), s.unused + 1, write)) == Returned(SUCCESS) {
      assert s.envs[e].live + [s.unused] == [s.unused];
    } else {
      assert AllocateTxn(s, e, write).txns - {s.unused} == s.txns;
    }
  }

  lemma BeginCallAnswers(w: World, s: Proc, e: nat, t: nat, env: nat, n: nat)
    requires e in s.envs && t in s.txns
    ensures var c := BeginTxn(env, n, s.txns[t].write);
            var r := BeginCall(w, s, e, t, env, n);
            && r.proc.ledger == Make(w, s.ledger, s.pid, c) && Onward(s, r.proc, 0)
            && r.proc.openEnvs == s.openEnvs && r.proc.abandoned == s.abandoned
            && if Answer(w, s.ledger, c) == Returned(SUCCESS)
               then r.reply == Begun(t) && r.proc.txns == s.txns[t := s.txns[t].(txn := Some(n))]
                    && r.proc.envs == s.envs[e := s.envs[e].(live := s.envs[e].live + [t])]
               else
                 && Plainly(r.reply, Answer(w, s.ledger, c)) && r.proc.txns == s.txns - {t}
                 && r.proc.envs == s.envs[e := s.envs[e].(poisoned :=
                      s.envs[e].poisoned || Answer(w, s.ledger, c).Panicked?)]
  {}

  /** Every handle but `t` and its environment `e` is as it was, and those two hold and owe what
      they did. */
  predicate Beside(s: Proc, r: Proc, t: nat, e: nat)
    requires t in s.txns && e in s.envs
  {
    && Onward(s, r, 0) && r.openEnvs == s.openEnvs
    && t in r.txns && r.txns == s.txns[t := r.txns[t]]
    && e in r.envs && r.envs == s.envs[e := r.envs[e]]
    && r.envs[e].env == s.envs[e].env && r.envs[e].pid == s.envs[e].pid
  }

  /** How an ended transaction is left: nothing held, the state it ended in, off the registry; and
      the list starts of its environment just read if it was a writer. */
  predicate EndedAs(w: World, s: Proc, r: Proc, t: nat, e: nat, state: TxnState)
    requires t in s.txns && e in s.envs && Beside(s, r, t, e) && s.envs[e].env.Some?
  {
    && r.txns[t] == s.txns[t].(txn := None, owner := None, state := state)
    && r.envs[e].live == [] && r.envs[e].poisoned == s.envs[e].poisoned
    && r.envs[e].roots == (if s.txns[t].write then w.roots(r.ledger.trace, EnvOf(s, e))
                           else s.envs[e].roots)
  }

  /** A commit, or an abort, of an accepted transaction is one native call. Unless libmdbx kept the
      transaction, by panicking or for the wrong thread, the handle lets go of it, and reads as
      committed exactly after a commit that succeeded. */
  lemma FinishAnswers(w: World, s: Proc, t: nat, commit: bool)
    requires Inv(s) && OwnTxn(s, t) && TxnOk(s.ledger, s.pid, TxnOf(s, t))
    ensures var r := FinishStep(w, s, t, commit);
            var c := if commit then CommitTxn(TxnOf(s, t)) else AbortTxn(TxnOf(s, t));
            var o := Answer(w, s.ledger, c);
            && Asked(w, s, r.proc, c) && Finally(r.reply, o) && r.proc.abandoned == s.abandoned
            && s.txns[t].owner.Some? && s.txns[t].owner.value in s.envs
            && var e := s.txns[t].owner.value;
               && Beside(s, r.proc, t, e) && s.envs[e].env.Some?
               && if o.Panicked? || o.rc == THREAD_MISMATCH
                  then StruckAs(s, r.proc, t, e, o.Panicked?)
                  else EndedAs(w, s, r.proc, t, e,
                               if commit && o.rc == SUCCESS then Committed else Aborted)
  {
    TxnRefusals(s, t);
    AcceptedTxn(s, t);
    FinishOnAnswers(w, s, t, commit);
  }

  /** Still there, and marked where libmdbx panicked. */
  predicate StruckAs(s: Proc, r: Proc, t: nat, e: nat, panicked: bool)
    requires t in s.txns && e in s.envs && Beside(s, r, t, e)
  {
    && r.txns[t] == s.txns[t].(poisoned := s.txns[t].poisoned || panicked)
    && r.envs[e] == s.envs[e].(poisoned := s.envs[e].poisoned || panicked)
  }

  lemma FinishOnAnswers(w: World, s: Proc, t: nat, commit: bool)
    requires OwnTxn(s, t) && s.txns[t].owner.Some? && s.txns[t].owner.value in s.envs
    requires var e := s.txns[t].owner.value;
             s.envs[e].live == [t] && UsableHandle(s, s.envs[e])
    ensures var r := FinishOn(w, s, t, TxnOf(s, t), commit);
            var c := if commit then CommitTxn(TxnOf(s, t)) else AbortTxn(TxnOf(s, t));
            var o := Answer(w, s.ledger, c);
            var e := s.txns[t].owner.value;
            && Asked(w, s, r.proc, c) && Finally(r.reply, o) && r.proc.abandoned == s.abandoned
            && Beside(s, r.proc, t, e)
            && if o.Panicked? || o.rc == THREAD_MISMATCH
               then StruckAs(s, r.proc, t, e, o.Panicked?)
               else EndedAs(w, s, r.proc, t, e,
                            if commit && o.rc == SUCCESS then Committed else Aborted)
  {
    assert Without([t], t) == [];
  }

  /** An abort of a transaction that is over, or gone, does nothing. One whose environment libmdbx
      broke is given up without a call. One of another process is refused. Any other is the native
      abort. */
  lemma AbortAnswers(w: World, s: Proc, t: nat)
    requires Inv(s)
    ensures t !in s.txns || s.txns[t].txn.None? ==> AbortStep(w, s, t) == Result(s, Done)
    ensures t in s.txns && s.txns[t].txn.Some? && s.txns[t].pid != s.pid ==>
              AbortStep(w, s, t) == Result(s, Refused(ForeignTxn))
    ensures OwnTxn(s, t) ==>
              TxnOf(s, t) in s.ledger.txns && s.ledger.txns[TxnOf(s, t)].env in s.ledger.envs
    ensures OwnTxn(s, t) && TxnOk(s.ledger, s.pid, TxnOf(s, t)) ==>
              AbortStep(w, s, t) == FinishStep(w, s, t, false)
    ensures OwnTxn(s, t) && s.ledger.envs[s.ledger.txns[TxnOf(s, t)].env].status.Broken? ==>
              var r := AbortStep(w, s, t);
              && r.reply == Done && r.proc.ledger == s.ledger
              && r.proc.abandoned == s.abandoned + [TxnPointer(TxnOf(s, t))]
              && Onward(s, r.proc, 0)
              && r.proc.txns == s.txns[t := s.txns[t].(txn := None, owner := None, state := Aborted)]
  {
    TxnRefusals(s, t);
    if t in s.txns && s.txns[t].txn.Some? {
      assert TxnLinked(s, t) && TxnNative(s, t) && EnvNative(s, s.txns[t].owner.value);
    }
  }

  // -------------------------------------------------------------------------
  // Operations
  // -------------------------------------------------------------------------

  /** An operation of an accepted transaction is one native call, and its outcome is the answer. A
      write transaction's view becomes what a successful operation made of it; nothing else a
      transaction or the committed store holds changes. */
  lemma OperationAnswers(w: World, s: Proc, t: nat, next: Store)
    requires Inv(s) && OwnTxn(s, t) && TxnOk(s.ledger, s.pid, TxnOf(s, t))
    ensures var r := TxnOpStep(w, s, t, next);
            var n := TxnOf(s, t);
            var o := Answer(w, s.ledger, TxnCall(n, next));
            && Asked(w, s, r.proc, TxnCall(n, next)) && Plainly(r.reply, o)
            && n in r.proc.ledger.txns
            && r.proc.ledger.txns == s.ledger.txns[n := s.ledger.txns[n].(view :=
                 if o == Returned(SUCCESS) && s.txns[t].write then next else s.ledger.txns[n].view)]
            && (forall m :: m in s.ledger.envs ==>
                  m in r.proc.ledger.envs && r.proc.ledger.envs[m].data == s.ledger.envs[m].data)
            && s.txns[t].owner.Some? && s.txns[t].owner.value in s.envs
            && Beside(s, r.proc, t, s.txns[t].owner.value)
            && StruckAs(s, r.proc, t, s.txns[t].owner.value, o.Panicked?)
  {
    TxnRefusals(s, t);
    AcceptedTxn(s, t);
    OperationOn(w, s, t, next);
    OperationWrites(w, s.ledger, s.pid, TxnOf(s, t), next);
  }

  lemma OperationOn(w: World, s: Proc, t: nat, next: Store)
    requires OwnTxn(s, t) && s.txns[t].owner.Some? && s.txns[t].owner.value in s.envs
    ensures var c := TxnCall(TxnOf(s, t), next);
            var r := TxnCallOn(w, s, t, c);
            var e := s.txns[t].owner.value;
            && r.proc.ledger == Make(w, s.ledger, s.pid, c)
            && Plainly(r.reply, Answer(w, s.ledger, c)) && Beside(s, r.proc, t, e)
            && StruckAs(s, r.proc, t, e, Answer(w, s.ledger, c).Panicked?)
  {}

  lemma OperationWrites(w: World, l: Ledger, pid: nat, n: nat, next: Store)
    requires n in l.txns
    ensures var r := Make(w, l, pid, TxnCall(n, next));
            && n in r.txns
            && r.txns == l.txns[n := l.txns[n].(view :=
                 if Answer(w, l, TxnCall(n, next)) == Returned(SUCCESS) && l.txns[n].write then next
                 else l.txns[n].view)]
            && (forall m :: m in l.envs ==> m in r.envs && r.envs[m].data == l.envs[m].data)
  {}

  /** Statistics through a transaction ask about its environment, under it; a panic strikes the
      environment alone. */
  lemma StatAnswers(w: World, s: Proc, t: nat)
    requires Inv(s) && OwnTxn(s, t) && TxnOk(s.ledger, s.pid, TxnOf(s, t))
    ensures var r := TxnStatStep(w, s, t);
            var n := TxnOf(s, t);
            var c := EnvCall(s.ledger.txns[n].env, Some(n));
            && Asked(w, s, r.proc, c) && Plainly(r.reply, Answer(w, s.ledger, c))
            && r.proc.txns == s.txns
            && s.txns[t].owner.Some? && s.txns[t].owner.value in s.envs
            && OnlyStruck(s, r.proc, s.txns[t].owner.value, Answer(w, s.ledger, c).Panicked?)
  {
    TxnRefusals(s, t);
    AcceptedTxn(s, t);
    var e := s.txns[t].owner.value;
    EnvCallAnswers(w, s, e, EnvCall(s.envs[e].env.value, s.txns[t].txn));
  }

  lemma EnvCallAnswers(w: World, s: Proc, e: nat, c: Call)
    requires e in s.envs && c.EnvCall?
    ensures var r := EnvCallOn(w, s, e, c);
            && Asked(w, s, r.proc, c) && Plainly(r.reply, Answer(w, s.ledger, c))
            && OnlyStruck(s, r.proc, e, Answer(w, s.ledger, c).Panicked?)
  {}

  predicate OnlyStruck(s: Proc, r: Proc, e: nat, panicked: bool)
    requires e in s.envs
  {
    && r.txns == s.txns && r.openEnvs == s.openEnvs && r.abandoned == s.abandoned && Onward(s, r, 0)
    && r.envs == s.envs[e := s.envs[e].(poisoned := s.envs[e].poisoned || panicked)]
  }

  /** What the transaction an environment operation borrows has to be: the one running on it. */
  predicate Running(l: Ledger, m: nat, n: nat) {
    n in l.txns && l.txns[n].env == m && !l.txns[n].ended
  }

  /** An environment operation is one native call, under the transaction running there if it is one
      that borrows it, and under none otherwise. */
  lemma EnvOpAnswers(w: World, s: Proc, e: nat, inTxn: bool)
    requires Inv(s) && OwnEnv(s, e) && EnvOk(s.ledger, s.pid, EnvOf(s, e))
    ensures var r := EnvOpStep(w, s, e, inTxn);
            var m := EnvOf(s, e);
            exists under: Option<nat> ::
              && Asked(w, s, r.proc, EnvCall(m, under))
              && Plainly(r.reply, Answer(w, s.ledger, EnvCall(m, under)))
              && OnlyStruck(s, r.proc, e, Answer(w, s.ledger, EnvCall(m, under)).Panicked?)
              && (forall n: nat :: under == Some(n) <==> inTxn && Running(s.ledger, m, n))
  {
    EnvRefusals(s, e);
    var live := s.envs[e].live;
    var under := if inTxn then CurrentTxn(s, live) else None;
    BorrowsRunning(s, e);
    EnvCallAnswers(w, s, e, EnvCall(EnvOf(s, e), under));
    assert Asked(w, s, EnvOpStep(w, s, e, inTxn).proc, EnvCall(EnvOf(s, e), under));
  }

  lemma BorrowsRunning(s: Proc, e: nat)
    requires Inv(s) && OwnEnv(s, e) && EnvOk(s.ledger, s.pid, EnvOf(s, e))
    ensures forall n: nat ::
              CurrentTxn(s, s.envs[e].live) == Some(n) <==> Running(s.ledger, EnvOf(s, e), n)
  {
    var live, m := s.envs[e].live, EnvOf(s, e);
    CurrentIsFirst(s, e);
    if live != [] { RegisteredRuns(s, e); }
    forall n: nat | Running(s.ledger, m, n) ensures CurrentTxn(s, live) == Some(n) {
      SoleRunning(s, e, n);
    }
  }

  lemma CurrentIsFirst(s: Proc, e: nat)
    requires Linked(s) && e in s.envs
    ensures CurrentTxn(s, s.envs[e].live)
         == if s.envs[e].live == [] then None
            else if s.envs[e].live[0] in s.txns then s.txns[s.envs[e].live[0]].txn else None
  {
    assert EnvLinked(s, e);
    if s.envs[e].live != [] { assert TxnLinked(s, s.envs[e].live[0]); }
  }

  lemma RegisteredRuns(s: Proc, e: nat)
    requires Linked(s) && Faithful(s) && OwnEnv(s, e) && s.envs[e].live != []
    ensures var t := s.envs[e].live[0];
            t in s.txns && s.txns[t].txn.Some? && Running(s.ledger, EnvOf(s, e), TxnOf(s, t))
  {
    var t := s.envs[e].live[0];
    assert EnvLinked(s, e);
    assert TxnLinked(s, t) && TxnNative(s, t);
  }

  /** A transaction running on a sound environment is held by the handle registered there. */
  lemma SoleRunning(s: Proc, e: nat, n: nat)
    requires Inv(s) && OwnEnv(s, e) && EnvOk(s.ledger, s.pid, EnvOf(s, e))
    requires Running(s.ledger, EnvOf(s, e), n)
    ensures s.envs[e].live != [] && s.envs[e].live[0] in s.txns
    ensures s.txns[s.envs[e].live[0]].txn == Some(n)
  {
    assert TxnAccounted(s, n);
    var t :| t in s.txns && s.txns[t].txn == Some(n);
    assert TxnLinked(s, t) && TxnNative(s, t);
    SoleEnv(s, e);
  }

  // -------------------------------------------------------------------------
  // Finalizers
  // -------------------------------------------------------------------------

  /** Whether libmdbx panicked in the abort a finalizer makes of `t`, if it makes one. */
  predicate Strikes(w: World, s: Proc, t: nat, mayCall: bool)
    requires t in s.txns && s.txns[t].txn.Some?
  {
    mayCall && Answer(w, s.ledger, AbortTxn(TxnOf(s, t))).Panicked?
  }

  /** A transaction ended as the finalizers do: aborted natively if that may be asked; given up if
      it may not, or panicked. */
  predicate Relinquished(w: World, s: Proc, r: Proc, t: nat, mayCall: bool)
    requires t in s.txns && s.txns[t].txn.Some?
  {
    && r.ledger.trace == (if mayCall then Make(w, s.ledger, s.pid, AbortTxn(TxnOf(s, t))).trace
                          else s.ledger.trace)
    && r.abandoned == (if mayCall && !Strikes(w, s, t, mayCall) then s.abandoned
                       else s.abandoned + [TxnPointer(TxnOf(s, t))])
    && Onward(s, r, 0)
  }

  function Over(w: World, s: Proc, t: nat, mayCall: bool): TxnHandle
    requires t in s.txns && s.txns[t].txn.Some?
  {
    s.txns[t].(txn := None, owner := None, state := Aborted,
               poisoned := s.txns[t].poisoned || Strikes(w, s, t, mayCall))
  }

  lemma ReleaseAnswers(w: World, s: Proc, t: nat)
    requires t in s.txns && s.txns[t].txn.Some? && s.txns[t].owner.Some?
    requires s.txns[t].owner.value in s.envs
    ensures var mayCall := UsableHandle(s, s.envs[s.txns[t].owner.value]);
            var r := Unlink(Release(w, s, t), t, Aborted);
            && Relinquished(w, s, r, t, mayCall)
            && r.txns == s.txns[t := Over(w, s, t, mayCall)]
            && r.ledger == if mayCall then Make(w, s.ledger, s.pid, AbortTxn(TxnOf(s, t))) else s.ledger
  {}

  lemma MarkAnswers(w: World, s: Proc, t: nat)
    requires t in s.txns && s.txns[t].owner.Some? && s.txns[t].owner.value in s.envs
    ensures var r, u := MarkFinished(w, s, t, Aborted), Unlink(s, t, Aborted);
            && r.ledger.trace == u.ledger.trace && r.abandoned == u.abandoned && r.txns == u.txns
            && Onward(u, r, 0)
  {}

  /** A transaction that becomes garbage is aborted natively exactly while it may be used. One that
      may not be, or whose abort panicked, is given up. */
  lemma FinalizeTxnAnswers(w: World, s: Proc, t: nat)
    requires Inv(s) && OwningThread(w) && t in s.txns
    ensures var r := FinalizeTxnStep(w, s, t);
            if s.txns[t].txn.None? then r == DeleteTxn(s, t)
            else
              && r.txns == s.txns - {t}
              && Relinquished(w, s, r, t, s.txns[t].pid == s.pid && TxnOk(s.ledger, s.pid, TxnOf(s, t)))
  {
    FinalizeTxnForm(w, s, t);
    if s.txns[t].txn.Some? {
      HeldUsable(s, t);
      FinalizeReleased(w, s, t);
    }
  }

  lemma HeldUsable(s: Proc, t: nat)
    requires Inv(s) && t in s.txns && s.txns[t].txn.Some?
    ensures s.txns[t].owner.Some? && s.txns[t].owner.value in s.envs
    ensures UsableHandle(s, s.envs[s.txns[t].owner.value]) <==>
              s.txns[t].pid == s.pid && TxnOk(s.ledger, s.pid, TxnOf(s, t))
  {
    assert TxnLinked(s, t) && TxnNative(s, t) && EnvNative(s, s.txns[t].owner.value);
  }

  lemma FinalizeReleased(w: World, s: Proc, t: nat)
    requires t in s.txns && s.txns[t].txn.Some? && s.txns[t].owner.Some?
    requires s.txns[t].owner.value in s.envs
    ensures var r := DeleteTxn(MarkFinished(w, Release(w, s, t), t, Aborted), t);
            && r.txns == s.txns - {t}
            && Relinquished(w, s, r, t, UsableHandle(s, s.envs[s.txns[t].owner.value]))
  {
    ReleaseAnswers(w, s, t);
    MarkAnswers(w, Release(w, s, t), t);
    assert s.txns[t := Over(w, s, t, UsableHandle(s, s.envs[s.txns[t].owner.value]))] - {t}
        == s.txns - {t};
  }

  /** What an environment's finalizer, or the close of a broken one, does to its transaction. */
  lemma DetachAnswers(w: World, s: Proc, e: nat)
    requires Inv(s) && e in s.envs
    ensures NoDangling(s) && e in DetachTxns(w, s, e).envs
    ensures var r := DetachTxns(w, s, e);
            var mayCall := UsableHandle(s, s.envs[e]);
            if s.envs[e].live == [] then r == s
            else
              var t := s.envs[e].live[0];
              && t in s.txns && s.txns[t].txn.Some?
              && r.txns == s.txns[t := Over(w, s, t, mayCall)] && Relinquished(w, s, r, t, mayCall)
  {
    DetachForm(w, s, e);
    if s.envs[e].live != [] {
      ReleaseAnswers(w, s, s.envs[e].live[0]);
      ReleaseKeepsEnv(w, s, e, s.envs[e].live[0]);
    }
  }

  /** An environment that becomes garbage is closed natively exactly if it may be used once its
      transaction, if it has one, has been ended: so not if that panicked. */
  lemma FinalizeEnvAnswers(w: World, s: Proc, e: nat)
    requires Inv(s) && OwningThread(w) && NoDangling(s) && e in s.envs
    ensures var r := FinalizeEnvStep(w, s, e);
            && r.envs.Keys == s.envs.Keys - {e}
            && if !OwnEnv(s, e) || !EnvOk(s.ledger, s.pid, EnvOf(s, e)) then r.ledger == s.ledger
               else if Idle(s.ledger, EnvOf(s, e)) then
                 r.ledger == Make(w, s.ledger, s.pid, CloseEnv(EnvOf(s, e)))
               else exists n: nat ::
                 Running(s.ledger, EnvOf(s, e), n)
                 && r.ledger == AbortedClosed(w, s.ledger, s.pid, n, EnvOf(s, e))
  {
    EnvRefusals(s, e);
    DetachForm(w, s, e);
    if OwnEnv(s, e) && EnvOk(s.ledger, s.pid, EnvOf(s, e)) {
      LinkedIffRunning(s, e);
      if s.envs[e].live != [] { RegisteredRuns(s, e); }
    }
    if s.envs[e].live == [] {
      FinalizeAlone(w, s, e);
    } else {
      FinalizeDetaches(w, s, e, s.envs[e].live[0]);
    }
  }

  lemma FinalizeAlone(w: World, s: Proc, e: nat)
    requires e in s.envs && s.envs[e].live == []
    ensures var r := DeleteEnv(CloseHandle(w, s, e, false).proc, e);
            && r.envs.Keys == s.envs.Keys - {e}
            && r.ledger == if UsableHandle(s, s.envs[e])
                           then Make(w, s.ledger, s.pid, CloseEnv(EnvOf(s, e))) else s.ledger
  {}

  function AbortedClosed(w: World, l: Ledger, pid: nat, n: nat, m: nat): Ledger {
    var aborted := Make(w, l, pid, AbortTxn(n));
    if Answer(w, l, AbortTxn(n)).Panicked? then aborted else Make(w, aborted, pid, CloseEnv(m))
  }

  lemma FinalizeDetaches(w: World, s: Proc, e: nat, t: nat)
    requires e in s.envs && s.envs[e].live == [t]
    requires t in s.txns && s.txns[t].txn.Some? && s.txns[t].owner == Some(e)
    ensures var d := Unlink(Release(w, s, t), t, Aborted);
            var r := DeleteEnv(CloseHandle(w, d, e, false).proc, e);
            && e in d.envs && r.envs.Keys == s.envs.Keys - {e}
            && r.ledger == if UsableHandle(s, s.envs[e])
                           then AbortedClosed(w, s.ledger, s.pid, TxnOf(s, t), EnvOf(s, e))
                           else s.ledger
  {
    assert Without([t], t) == [];
  }
}
