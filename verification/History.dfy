/** What "no forbidden call" means for the history itself: statements about which calls come
    before and after which, that mention no ledger. */
module History {
  import opened Bytes
  import opened ReferenceModel
  import opened Native

  /** The ledger as a record of guarded calls alone would leave it. */
  function Replay(trace: seq<Event>): Ledger {
    if trace == [] then NO_HANDLES
    else
      var last := trace[|trace| - 1];
      Record(Replay(trace[..|trace| - 1]), last.pid, last.call, last.outcome)
  }

  /** The ledger records what happened, and nothing else. */
  predicate Recorded(l: Ledger) {
    var replayed := Replay(l.trace);
    && l.envs == replayed.envs && l.txns == replayed.txns
    && (replayed.faulted ==> l.faulted)
  }

  /** What a call does depends on the handles alone. */
  lemma RecordAgrees(l: Ledger, m: Ledger, pid: nat, c: Call, o: Outcome)
    requires l.envs == m.envs && l.txns == m.txns
    ensures Record(l, pid, c, o).envs == Record(m, pid, c, o).envs
    ensures Record(l, pid, c, o).txns == Record(m, pid, c, o).txns
    ensures Allowed(l, pid, c) == Allowed(m, pid, c)
  {
    AllowedAgrees(l, m, pid, c);
    if o.Panicked? {
      assert Touches(l, c) == Touches(m, c);
    } else {
      EffectAgrees(l, m, pid, c, o.rc);
    }
  }

  lemma AllowedAgrees(l: Ledger, m: Ledger, pid: nat, c: Call)
    requires l.envs == m.envs && l.txns == m.txns
    ensures Allowed(l, pid, c) == Allowed(m, pid, c)
  {}

  /** Two ledgers of the same handles. */
  predicate Same(l: Ledger, m: Ledger) { l.envs == m.envs && l.txns == m.txns }

  lemma EndAgrees(l: Ledger, m: Ledger, t: nat)
    requires Same(l, m)
    ensures Same(End(l, t), End(m, t))
  {}

  lemma PublishAgrees(l: Ledger, m: Ledger, e: nat, data: Store)
    requires Same(l, m)
    ensures Same(Publish(l, e, data), Publish(m, e, data))
  {}

  lemma EffectAgrees(l: Ledger, m: Ledger, pid: nat, c: Call, rc: int)
    requires Same(l, m)
    ensures Same(Effect(l, pid, c, rc), Effect(m, pid, c, rc))
  {
    match c
    case CommitTxn(t) =>
      EndAgrees(l, m, t);
      if t in l.txns { PublishAgrees(End(l, t), End(m, t), l.txns[t].env, l.txns[t].view); }
    case AbortTxn(t) => EndAgrees(l, m, t);
    case OpenEnv(e, found) => PublishAgrees(l, m, e, found);
    case _ =>
  }

  lemma MakeRecorded(w: World, l: Ledger, pid: nat, c: Call)
    requires Recorded(l)
    ensures Recorded(Make(w, l, pid, c))
  {
    var r := Make(w, l, pid, c);
    assert r.trace[..|r.trace| - 1] == l.trace;
    RecordAgrees(l, Replay(l.trace), pid, c, Answer(w, l, c));
  }

  predicate Legal(trace: seq<Event>) { !Replay(trace).faulted }

  lemma {:induction false} LegalAt(trace: seq<Event>, i: nat)
    requires Legal(trace) && i < |trace|
    ensures Legal(trace[..i])
    ensures Allowed(Replay(trace[..i]), trace[i].pid, trace[i].call)
    ensures Replay(trace[..i + 1])
         == Record(Replay(trace[..i]), trace[i].pid, trace[i].call, trace[i].outcome)
    decreases |trace|
  {
    assert trace[..i + 1][..i] == trace[..i];
    if i < |trace| - 1 {
      LegalAt(trace[..|trace| - 1], i);
      assert trace[..|trace| - 1][..i] == trace[..i];
      assert trace[..|trace| - 1][..i + 1] == trace[..i + 1];
    } else {
      assert trace[..i + 1] == trace;
    }
  }

  // -------------------------------------------------------------------------
  // The history, read without a ledger
  // -------------------------------------------------------------------------

  predicate Begins(v: Event, e: nat, t: nat) {
    v.call.BeginTxn? && v.call.e == e && v.call.t == t && v.outcome == Returned(SUCCESS)
  }

  /** The call is one that ends transaction `t`: mdbx.h says so of every commit result but a
      thread mismatch. */
  predicate Ends(v: Event, t: nat) {
    && (v.call.CommitTxn? || v.call.AbortTxn?) && v.call.t == t
    && v.outcome.Returned? && v.outcome.rc != THREAD_MISMATCH
  }

  /** The call names environment `e`, or a transaction begun on it earlier. */
  ghost predicate Concerns(trace: seq<Event>, i: nat, e: nat)
    requires i < |trace|
  {
    match trace[i].call
    case CreateEnv(_) => false
    case OpenEnv(d, _) => d == e
    case CloseEnv(d) => d == e
    case BeginTxn(d, _, _) => d == e
    case EnvCall(d, _) => d == e
    case CommitTxn(t) => BegunBefore(trace, i, e, t)
    case AbortTxn(t) => BegunBefore(trace, i, e, t)
    case TxnCall(t, _) => BegunBefore(trace, i, e, t)
  }

  ghost predicate BegunBefore(trace: seq<Event>, i: nat, e: nat, t: nat)
    requires i <= |trace|
  {
    exists j :: 0 <= j < i && Begins(trace[j], e, t)
  }

  ghost predicate EndedBetween(trace: seq<Event>, j: nat, k: nat, t: nat)
    requires k <= |trace|
  {
    exists i :: j < i < k && Ends(trace[i], t)
  }

  /** What one call does to the ledger's entry for a transaction. */
  lemma EntryOfTxn(l: Ledger, pid: nat, c: Call, o: Outcome, t: nat)
    requires Allowed(l, pid, c)
    ensures t in l.txns ==>
              var r := Record(l, pid, c, o);
              && t in r.txns && r.txns[t].env == l.txns[t].env
              && (r.txns[t].ended <==> l.txns[t].ended || Ends(Event(pid, c, o), t))
    ensures forall e :: Begins(Event(pid, c, o), e, t) ==>
              var r := Record(l, pid, c, o);
              t !in l.txns && t in r.txns && r.txns[t].env == e && !r.txns[t].ended
    ensures t in Record(l, pid, c, o).txns && t !in l.txns ==>
              Begins(Event(pid, c, o), Record(l, pid, c, o).txns[t].env, t)
  {}

  /** What one call does to the ledger's entry for an environment. */
  lemma EntryOfEnv(l: Ledger, pid: nat, c: Call, o: Outcome, e: nat)
    requires Allowed(l, pid, c)
    ensures e in l.envs ==>
              var r := Record(l, pid, c, o);
              && e in r.envs && r.envs[e].pid == l.envs[e].pid
              && (!l.envs[e].status.Usable? ==> !r.envs[e].status.Usable?)
    ensures e in Record(l, pid, c, o).envs && e !in l.envs ==>
              Event(pid, c, o)
              == Event(Record(l, pid, c, o).envs[e].pid, CreateEnv(e), Returned(SUCCESS))
  {}

  lemma EndedByLast(trace: seq<Event>, j: nat, k: nat, t: nat)
    requires j + 1 < k <= |trace|
    ensures EndedBetween(trace, j, k, t) <==> EndedBetween(trace, j, k - 1, t) || Ends(trace[k - 1], t)
  {}

  /** From its begin on, the ledger knows a transaction's environment and whether it has ended. */
  lemma {:induction false} LifeOfTxn(trace: seq<Event>, j: nat, k: nat, e: nat, t: nat)
    requires Legal(trace) && j < k <= |trace| && Begins(trace[j], e, t)
    ensures var l := Replay(trace[..k]);
            t in l.txns && l.txns[t].env == e && (l.txns[t].ended <==> EndedBetween(trace, j, k, t))
    decreases k
  {
    LegalAt(trace, k - 1);
    var last := trace[k - 1];
    EntryOfTxn(Replay(trace[..k - 1]), last.pid, last.call, last.outcome, t);
    if k > j + 1 {
      LifeOfTxn(trace, j, k - 1, e, t);
      EndedByLast(trace, j, k, t);
    }
  }

  /** The ledger knows no other transactions. */
  lemma {:induction false} TxnsWereBegun(trace: seq<Event>, k: nat, t: nat)
    requires Legal(trace) && k <= |trace| && t in Replay(trace[..k]).txns
    ensures BegunBefore(trace, k, Replay(trace[..k]).txns[t].env, t)
    decreases k
  {
    if k > 0 {
      LegalAt(trace, k - 1);
      var before := Replay(trace[..k - 1]);
      var last := trace[k - 1];
      EntryOfTxn(before, last.pid, last.call, last.outcome, t);
      if t in before.txns {
        TxnsWereBegun(trace, k - 1, t);
        assert Replay(trace[..k]).txns[t].env == before.txns[t].env;
      } else {
        assert Begins(trace[k - 1], Replay(trace[..k]).txns[t].env, t);
      }
    }
  }

  /** An environment is closed only once every transaction ever begun on it has been ended. */
  lemma ClosedAfterItsTransactions(trace: seq<Event>, j: nat, k: nat, e: nat, t: nat)
    requires Legal(trace) && j < k < |trace|
    requires Begins(trace[j], e, t) && trace[k].call == CloseEnv(e)
    ensures EndedBetween(trace, j, k, t)
  {
    LegalAt(trace, k);
    LifeOfTxn(trace, j, k, e, t);
  }

  /** A call that concerns an environment is allowed only while the ledger has it usable, and
      only to the process that created it. */
  lemma ConcernsUsable(trace: seq<Event>, k: nat, e: nat)
    requires Legal(trace) && k < |trace| && Concerns(trace, k, e)
    ensures EnvOk(Replay(trace[..k]), trace[k].pid, e)
  {
    LegalAt(trace, k);
    var c := trace[k].call;
    if c.CommitTxn? || c.AbortTxn? || c.TxnCall? {
      var j :| 0 <= j < k && Begins(trace[j], e, c.t);
      LifeOfTxn(trace, j, k, e, c.t);
    }
  }

  lemma {:induction false} StaysUnusable(trace: seq<Event>, i: nat, k: nat, e: nat)
    requires Legal(trace) && i <= k <= |trace|
    requires e in Replay(trace[..i]).envs && !Replay(trace[..i]).envs[e].status.Usable?
    ensures e in Replay(trace[..k]).envs && !Replay(trace[..k]).envs[e].status.Usable?
    decreases k
  {
    if k > i {
      LegalAt(trace, k - 1);
      var last := trace[k - 1];
      EntryOfEnv(Replay(trace[..k - 1]), last.pid, last.call, last.outcome, e);
      StaysUnusable(trace, i, k - 1, e);
    }
  }

  /** After a panic in a call that concerns an environment, or a close of it, it is unusable. */
  lemma UnusableAfter(trace: seq<Event>, i: nat, k: nat, e: nat, pid: nat)
    requires Legal(trace) && i < k <= |trace| && Concerns(trace, i, e)
    requires trace[i].outcome.Panicked? || trace[i].call.CloseEnv?
    ensures !EnvOk(Replay(trace[..k]), pid, e)
  {
    LegalAt(trace, i);
    ConcernsUsable(trace, i, e);
    var c := trace[i].call;
    if c.CommitTxn? || c.AbortTxn? || c.TxnCall? {
      var j :| 0 <= j < i && Begins(trace[j], e, c.t);
      LifeOfTxn(trace, j, i, e, c.t);
    }
    StaysUnusable(trace, i + 1, k, e);
  }

  /** So there is no later call that concerns it. */
  lemma SilentAfterPanicOrClose(trace: seq<Event>, i: nat, k: nat, e: nat)
    requires Legal(trace) && i < k < |trace| && Concerns(trace, i, e)
    requires trace[i].outcome.Panicked? || trace[i].call.CloseEnv?
    ensures !Concerns(trace, k, e)
  {
    UnusableAfter(trace, i, k, e, trace[k].pid);
    if Concerns(trace, k, e) { ConcernsUsable(trace, k, e); }
  }

  /** The environment a call touches, by the ledger, is the one it concerns, by the history. */
  lemma TouchesConcerned(trace: seq<Event>, k: nat, e: nat)
    requires Legal(trace) && k < |trace|
    ensures Touches(Replay(trace[..k]), trace[k].call) == Some(e) <==> Concerns(trace, k, e)
  {
    LegalAt(trace, k);
    var c := trace[k].call;
    if c.CommitTxn? || c.AbortTxn? || c.TxnCall? {
      if c.t in Replay(trace[..k]).txns { TxnsWereBegun(trace, k, c.t); }
      if BegunBefore(trace, k, e, c.t) {
        var j :| 0 <= j < k && Begins(trace[j], e, c.t);
        LifeOfTxn(trace, j, k, e, c.t);
      }
    }
  }

  lemma {:induction false} StaysKnown(trace: seq<Event>, i: nat, k: nat, e: nat)
    requires Legal(trace) && i <= k <= |trace| && e in Replay(trace[..i]).envs
    ensures e in Replay(trace[..k]).envs
    decreases k
  {
    if k > i {
      LegalAt(trace, k - 1);
      var last := trace[k - 1];
      StaysKnown(trace, i, k - 1, e);
      StatusAfter(Replay(trace[..k - 1]), last.pid, last.call, last.outcome, e);
    }
  }

  /** What one call does to an environment's status. */
  lemma StatusAfter(l: Ledger, pid: nat, c: Call, o: Outcome, e: nat)
    requires Allowed(l, pid, c) && e in l.envs
    ensures e in Record(l, pid, c, o).envs
    ensures Record(l, pid, c, o).envs[e].status ==
            if Touches(l, c) != Some(e) then l.envs[e].status
            else if o.Panicked? then (if c.CloseEnv? then Lost else Broken)
            else if c.CloseEnv? then Closed else l.envs[e].status
  {}

  ghost predicate Hurts(trace: seq<Event>, i: nat, e: nat)
    requires i < |trace|
  {
    Concerns(trace, i, e) && (trace[i].outcome.Panicked? || trace[i].call.CloseEnv?)
  }

  ghost predicate Breaks(trace: seq<Event>, i: nat, e: nat)
    requires i < |trace|
  {
    Concerns(trace, i, e) && trace[i].outcome.Panicked? && !trace[i].call.CloseEnv?
  }

  /** An environment is sound until a call that concerns it panics or closes it, and broken exactly
      if one other than its close panicked. */
  ghost predicate StatusTold(trace: seq<Event>, k: nat, e: nat, status: EnvStatus)
    requires k <= |trace|
  {
    && (status.Usable? <==> forall i :: 0 <= i < k ==> !Hurts(trace, i, e))
    && (status.Broken? <==> exists i :: 0 <= i < k && Breaks(trace, i, e))
  }

  lemma StatusToldNext(trace: seq<Event>, k: nat, e: nat, was: EnvStatus, status: EnvStatus)
    requires k < |trace| && StatusTold(trace, k, e, was)
    requires Concerns(trace, k, e) ==> was.Usable?
    requires status ==
             if !Concerns(trace, k, e) then was
             else if trace[k].outcome.Panicked? then (if trace[k].call.CloseEnv? then Lost else Broken)
             else if trace[k].call.CloseEnv? then Closed else was
    ensures StatusTold(trace, k + 1, e, status)
  {
    assert Hurts(trace, k, e) ==> !status.Usable?;
    assert Breaks(trace, k, e) ==> status.Broken?;
    forall i | 0 <= i < k && Breaks(trace, i, e) ensures Hurts(trace, i, e) {}
  }

  lemma {:induction false} StatusIs(trace: seq<Event>, k: nat, e: nat)
    requires Legal(trace) && k <= |trace| && e in Replay(trace[..k]).envs
    ensures StatusTold(trace, k, e, Replay(trace[..k]).envs[e].status)
    decreases k
  {
    if k > 0 {
      LegalAt(trace, k - 1);
      var before, last := Replay(trace[..k - 1]), trace[k - 1];
      if e in before.envs {
        StatusIs(trace, k - 1, e);
        TouchesConcerned(trace, k - 1, e);
        StatusAfter(before, last.pid, last.call, last.outcome, e);
        if Concerns(trace, k - 1, e) { ConcernsUsable(trace, k - 1, e); }
        StatusToldNext(trace, k - 1, e, before.envs[e].status, Replay(trace[..k]).envs[e].status);
      } else {
        NewIsUsable(before, last.pid, last.call, last.outcome, e);
        forall i | 0 <= i < k ensures !Concerns(trace, i, e) { UnknownUnconcerned(trace, i, k - 1, e); }
      }
    }
  }

  lemma NewIsUsable(l: Ledger, pid: nat, c: Call, o: Outcome, e: nat)
    requires e !in l.envs && e in Record(l, pid, c, o).envs
    ensures Record(l, pid, c, o).envs[e].status.Usable?
  {}

  lemma UnknownUnconcerned(trace: seq<Event>, i: nat, k: nat, e: nat)
    requires Legal(trace) && i <= k < |trace| && e !in Replay(trace[..k]).envs
    ensures !Concerns(trace, i, e)
  {
    if Concerns(trace, i, e) {
      ConcernsUsable(trace, i, e);
      StaysKnown(trace, i, k, e);
    }
  }

  lemma {:induction false} EnvsWereCreated(trace: seq<Event>, k: nat, e: nat)
    requires Legal(trace) && k <= |trace| && e in Replay(trace[..k]).envs
    ensures exists i :: 0 <= i < k &&
              trace[i] == Event(Replay(trace[..k]).envs[e].pid, CreateEnv(e), Returned(SUCCESS))
    decreases k
  {
    if k > 0 {
      LegalAt(trace, k - 1);
      var before := Replay(trace[..k - 1]);
      var last := trace[k - 1];
      EntryOfEnv(before, last.pid, last.call, last.outcome, e);
      if e in before.envs {
        EnvsWereCreated(trace, k - 1, e);
      } else {
        assert trace[k - 1]
            == Event(Replay(trace[..k]).envs[e].pid, CreateEnv(e), Returned(SUCCESS));
      }
    }
  }

  /** Only the process that created an environment ever calls libmdbx about it. */
  lemma OnlyItsOwnProcess(trace: seq<Event>, k: nat, e: nat)
    requires Legal(trace) && k < |trace| && Concerns(trace, k, e)
    ensures exists i :: 0 <= i < k && trace[i] == Event(trace[k].pid, CreateEnv(e), Returned(SUCCESS))
  {
    ConcernsUsable(trace, k, e);
    EnvsWereCreated(trace, k, e);
  }

  /** A transaction is never named again once ended, and no second one is begun on an environment
      while one is running there. */
  lemma NothingAfterTheEnd(trace: seq<Event>, i: nat, k: nat, t: nat)
    requires Legal(trace) && i < k < |trace| && Ends(trace[i], t)
    ensures !(trace[k].call.CommitTxn? || trace[k].call.AbortTxn? || trace[k].call.TxnCall?)
            || trace[k].call.t != t
    ensures trace[k].call.EnvCall? ==> trace[k].call.under != Some(t)
  {
    LegalAt(trace, i);
    TxnsWereBegun(trace, i, t);
    var j :| 0 <= j < i && Begins(trace[j], Replay(trace[..i]).txns[t].env, t);
    LifeOfTxn(trace, j, k, Replay(trace[..i]).txns[t].env, t);
    LegalAt(trace, k);
  }

  lemma NotClosedAfter(trace: seq<Event>, j: nat, k: nat, e: nat, t: nat)
    requires Legal(trace) && j < k < |trace| && Begins(trace[j], e, t)
    requires !EndedBetween(trace, j, |trace|, t)
    ensures trace[k].call != CloseEnv(e)
  {
    if trace[k].call == CloseEnv(e) { ClosedAfterItsTransactions(trace, j, k, e, t); }
  }

  lemma NotClosedBefore(trace: seq<Event>, k: nat, j: nat, e: nat, t: nat)
    requires Legal(trace) && k < j < |trace| && Begins(trace[j], e, t)
    ensures trace[k].call != CloseEnv(e)
  {
    if trace[k].call == CloseEnv(e) { SilentAfterPanicOrClose(trace, k, j, e); }
  }

  /** While a transaction has not been ended, its environment has not been closed. */
  lemma OpenWhileRunning(trace: seq<Event>, k: nat, t: nat)
    requires Legal(trace) && k < |trace| && t in Replay(trace).txns && !Replay(trace).txns[t].ended
    ensures trace[k].call != CloseEnv(Replay(trace).txns[t].env)
  {
    assert trace[..|trace|] == trace;
    var e := Replay(trace).txns[t].env;
    TxnsWereBegun(trace, |trace|, t);
    var j :| 0 <= j < |trace| && Begins(trace[j], e, t);
    LifeOfTxn(trace, j, |trace|, e, t);
    if j < k { NotClosedAfter(trace, j, k, e, t); }
    if k < j { NotClosedBefore(trace, k, j, e, t); }
  }

  lemma OneTransactionAtATime(trace: seq<Event>, j: nat, k: nat, e: nat, t: nat, u: nat)
    requires Legal(trace) && j < k < |trace| && Begins(trace[j], e, t) && Begins(trace[k], e, u)
    ensures EndedBetween(trace, j, k, t)
  {
    LegalAt(trace, k);
    LifeOfTxn(trace, j, k, e, t);
  }
}
