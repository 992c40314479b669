/** mdbx_with_write() and mdbx_with_read(): begin, run a body with the transaction, commit, and
    abort on every way out. */
module Bracket {
  import opened Bytes
  import opened ReferenceModel
  import opened Native
  import opened Handles
  import opened Invariant
  import opened Preservation
  import opened Answers
  import opened Safety

  /** What a body may do with the transaction it was given. A step that fails throws out of the
      body unless the body catches the error. */
  datatype Act = Act(what: What, caught: bool)
  datatype What = Operate(next: Store) | Look | CommitHere | AbortHere | Throw

  function Perform(w: World, s: Proc, t: nat, what: What): Result
    requires !what.Throw?
  {
    match what
    case Operate(next) => TxnOpStep(w, s, t, next)
    case Look => TxnStatStep(w, s, t)
    case CommitHere => FinishStep(w, s, t, true)
    case AbortHere => AbortStep(w, s, t)
  }

  datatype Body = Body(proc: Proc, threw: bool)

  function RunBody(w: World, s: Proc, t: nat, acts: seq<Act>): Body
    decreases |acts|
  {
    if acts == [] then Body(s, false)
    else if acts[0].what.Throw? then Body(s, true)
    else
      var r := Perform(w, s, t, acts[0].what);
      if r.reply != Done && !acts[0].caught then Body(r.proc, true)
      else RunBody(w, r.proc, t, acts[1..])
  }

  /** The body, then the commit a write bracket makes when the body returns. */
  function Inside(w: World, s: Proc, t: nat, write: bool, acts: seq<Act>): Body {
    var b := RunBody(w, s, t, acts);
    if b.threw || !write then b
    else
      var c := FinishStep(w, b.proc, t, true);
      Body(c.proc, c.reply != Done)
  }

  /** The whole bracket: `cleanup` is what the abort in on.exit() answered. */
  datatype Exit = NotBegun(proc: Proc, why: Reply) | Ran(proc: Proc, threw: bool, cleanup: Reply)

  function Bracketed(w: World, s: Proc, e: nat, write: bool, acts: seq<Act>): Exit {
    var b := BeginStep(w, s, e, write);
    if !b.reply.Begun? then NotBegun(b.proc, b.reply)
    else
      var inside := Inside(w, b.proc, b.reply.txn, write, acts);
      var a := AbortStep(w, inside.proc, b.reply.txn);
      Ran(a.proc, inside.threw, a.reply)
  }

  // -------------------------------------------------------------------------
  // What the bracket keeps
  // -------------------------------------------------------------------------

  ghost predicate CommittedSince(trace: seq<Event>, from: nat, n: nat) {
    exists i :: from <= i < |trace| && trace[i].call == CommitTxn(n)
      && trace[i].outcome == Returned(SUCCESS)
  }

  /** The transaction the bracket began: handle `t` on environment handle `e`, native `n` on `m`,
      when the trace had `from` events and the store held `data`. */
  datatype Watch = Watch(t: nat, e: nat, n: nat, m: nat, from: nat, data: Store, write: bool)

  ghost predicate Tracks(s: Proc, b: Watch) {
    && b.t in s.txns && s.txns[b.t].pid == s.pid && s.txns[b.t].write == b.write
    && ((s.txns[b.t].txn == Some(b.n) && s.txns[b.t].owner == Some(b.e)) || s.txns[b.t].txn == None)
    && b.e in s.envs && s.envs[b.e].env == Some(b.m) && s.envs[b.e].pid == s.pid
    && (s.txns[b.t].txn == None ==> s.envs[b.e].live == [])
    && b.n in s.ledger.txns && s.ledger.txns[b.n].env == b.m && s.ledger.txns[b.n].write == b.write
    && b.m in s.ledger.envs
    && b.from <= |s.ledger.trace|
    && (s.txns[b.t].state.Committed? <==> CommittedSince(s.ledger.trace, b.from, b.n))
    && s.ledger.envs[b.m].data ==
       if s.txns[b.t].state.Committed? && b.write then s.ledger.txns[b.n].view else b.data
  }

  /** One more event commits the transaction exactly if it is that event. */
  lemma CommittedByLast(trace: seq<Event>, from: nat, n: nat, v: Event)
    requires from <= |trace|
    ensures CommittedSince(trace + [v], from, n) <==>
            CommittedSince(trace, from, n) || (v.call == CommitTxn(n) && v.outcome == Returned(SUCCESS))
  {
    var r := trace + [v];
    if CommittedSince(trace, from, n) {
      var i :| from <= i < |trace| && trace[i].call == CommitTxn(n)
               && trace[i].outcome == Returned(SUCCESS);
      assert r[i] == trace[i];
    }
    assert r[|trace|] == v;
  }

  lemma TracksTxnCall(w: World, s: Proc, b: Watch, c: Call)
    requires Tracks(s, b) && s.txns[b.t].txn == Some(b.n) && s.txns[b.t].state.Active?
    requires
      || (c.TxnCall? && c.t == b.n)
      || ((c == CommitTxn(b.n) || c == AbortTxn(b.n))
          && (Answer(w, s.ledger, c).Panicked? || Answer(w, s.ledger, c).rc == THREAD_MISMATCH))
    ensures Tracks(GuardTxn(w, s, b.t, c).0, b)
  {}

  lemma TracksEnvCall(w: World, s: Proc, b: Watch, c: Call)
    requires Tracks(s, b) && c.EnvCall? && c.e == b.m
    ensures Tracks(GuardEnv(w, s, b.e, c).0, b)
  {
    CommittedByLast(s.ledger.trace, b.from, b.n, Event(s.pid, c, Answer(w, s.ledger, c)));
  }

  lemma TracksEnd(w: World, s: Proc, b: Watch, commit: bool)
    requires Tracks(s, b) && s.txns[b.t].txn == Some(b.n) && s.txns[b.t].state.Active?
    requires s.envs[b.e].live == [b.t]
    requires var o := Answer(w, s.ledger, if commit then CommitTxn(b.n) else AbortTxn(b.n));
             o.Returned? && o.rc != THREAD_MISMATCH
    ensures Tracks(FinishOn(w, s, b.t, b.n, commit).proc, b)
    ensures FinishOn(w, s, b.t, b.n, commit).proc.txns[b.t].txn == None
  {
    var c := if commit then CommitTxn(b.n) else AbortTxn(b.n);
    CommittedByLast(s.ledger.trace, b.from, b.n, Event(s.pid, c, Answer(w, s.ledger, c)));
    assert Without([b.t], b.t) == [];
  }

  lemma TracksGivenUp(w: World, s: Proc, b: Watch)
    requires Tracks(s, b) && s.txns[b.t].txn == Some(b.n) && s.txns[b.t].state.Active?
    requires s.envs[b.e].live == [b.t] && s.envs[b.e].poisoned
    ensures var given := s.(abandoned := AbandonTxn(s.abandoned, s.txns[b.t].txn));
            var r := MarkFinished(w, given, b.t, Aborted);
            Tracks(r, b) && r.txns[b.t].txn == None
  {}

  lemma TracksFinish(w: World, s: Proc, b: Watch, commit: bool)
    requires Inv(s) && Tracks(s, b)
    ensures Tracks(FinishStep(w, s, b.t, commit).proc, b)
    ensures !commit && OwningThread(w) && TxnRefusal(s, b.t).None? ==>
              var r := FinishStep(w, s, b.t, commit);
              r.reply == Panic || r.proc.txns[b.t].txn == None
  {
    if TxnRefusal(s, b.t).None? {
      AcceptedTxn(s, b.t);
      var c := if commit then CommitTxn(b.n) else AbortTxn(b.n);
      var o := Answer(w, s.ledger, c);
      if o.Panicked? || o.rc == THREAD_MISMATCH {
        TracksTxnCall(w, s, b, c);
      } else {
        TracksEnd(w, s, b, commit);
      }
    }
  }

  /** An abort ends the transaction, unless libmdbx panics in it. */
  lemma TracksAbort(w: World, s: Proc, b: Watch)
    requires Inv(s) && OwningThread(w) && Tracks(s, b)
    ensures Tracks(AbortStep(w, s, b.t).proc, b)
    ensures AbortStep(w, s, b.t).reply == Panic || AbortStep(w, s, b.t).proc.txns[b.t].txn == None
  {
    assert TxnLinked(s, b.t);
    if s.txns[b.t].txn.Some? {
      TracksFinish(w, s, b, false);
      if s.envs[b.e].poisoned { TracksGivenUp(w, s, b); }
    }
  }

  lemma TracksOps(w: World, s: Proc, b: Watch, next: Store)
    requires Inv(s) && Tracks(s, b)
    ensures Tracks(TxnOpStep(w, s, b.t, next).proc, b)
    ensures Tracks(TxnStatStep(w, s, b.t).proc, b)
  {
    if TxnRefusal(s, b.t).None? {
      AcceptedTxn(s, b.t);
      TracksTxnCall(w, s, b, TxnCall(b.n, next));
      TracksEnvCall(w, s, b, EnvCall(b.m, Some(b.n)));
    }
  }

  lemma TracksAct(w: World, s: Proc, b: Watch, what: What)
    requires Inv(s) && OwningThread(w) && Tracks(s, b) && !what.Throw?
    ensures Inv(Perform(w, s, b.t, what).proc) && Tracks(Perform(w, s, b.t, what).proc, b)
  {
    match what
    case Operate(next) => OpsInv(w, s, b.t, next); TracksOps(w, s, b, next);
    case Look => OpsInv(w, s, b.t, EMPTY_STORE); TracksOps(w, s, b, EMPTY_STORE);
    case CommitHere => FinishInv(w, s, b.t, true); TracksFinish(w, s, b, true);
    case AbortHere => AbortInv(w, s, b.t); TracksAbort(w, s, b);
  }

  /** What every act of some kind keeps, a whole body of them keeps. */
  lemma {:induction false} BodyInduction(w: World, s: Proc, t: nat, acts: seq<Act>, p: Proc -> bool,
                                         kind: What -> bool)
    requires p(s) && forall a :: a in acts ==> kind(a.what)
    requires forall x, what: What :: p(x) && kind(what) && !what.Throw? ==>
               p(Perform(w, x, t, what).proc)
    ensures p(RunBody(w, s, t, acts).proc)
    decreases |acts|
  {
    if acts != [] && !acts[0].what.Throw? {
      assert acts[0] in acts;
      BodyInduction(w, Perform(w, s, t, acts[0].what).proc, t, acts[1..], p, kind);
    }
  }

  lemma TracksBody(w: World, s: Proc, b: Watch, acts: seq<Act>)
    requires Inv(s) && OwningThread(w) && Tracks(s, b)
    ensures Inv(RunBody(w, s, b.t, acts).proc) && Tracks(RunBody(w, s, b.t, acts).proc, b)
  {
    forall x, what: What | Inv(x) && Tracks(x, b) && !what.Throw?
      ensures Inv(Perform(w, x, b.t, what).proc) && Tracks(Perform(w, x, b.t, what).proc, b)
    {
      TracksAct(w, x, b, what);
    }
    BodyInduction(w, s, b.t, acts, x => Inv(x) && Tracks(x, b), (what: What) => true);
  }

  /** The transaction a bracket begun in `s` will have. */
  function WatchOf(s: Proc, e: nat, write: bool): Watch
    requires e in s.envs && s.envs[e].env.Some? && s.envs[e].env.value in s.ledger.envs
  {
    var m := s.envs[e].env.value;
    Watch(s.unused, e, s.unused + 1, m, |s.ledger.trace|, s.ledger.envs[m].data, write)
  }

  lemma TracksBegin(w: World, s: Proc, e: nat, write: bool)
    requires Inv(s) && BeginStep(w, s, e, write).reply.Begun?
    ensures e in s.envs && s.envs[e].env.Some? && s.envs[e].env.value in s.ledger.envs
    ensures Tracks(BeginStep(w, s, e, write).proc, WatchOf(s, e, write))
    ensures BeginStep(w, s, e, write).reply == Begun(s.unused)
  {
    NewNumber(s);
    BeginTracked(w, s, e, write);
  }

  lemma BeginTracked(w: World, s: Proc, e: nat, write: bool)
    requires BeginStep(w, s, e, write).reply.Begun?
    requires forall d :: d in s.envs && s.envs[d].env.Some? ==> s.envs[d].env.value in s.ledger.envs
    ensures e in s.envs && s.envs[e].env.Some?
    ensures var m := s.envs[e].env.value;
            Tracks(BeginStep(w, s, e, write).proc,
                   Watch(s.unused, e, s.unused + 1, m, |s.ledger.trace|,
                         s.ledger.envs[m].data, write))
    ensures BeginStep(w, s, e, write).reply == Begun(s.unused)
  {}

  lemma TracksInside(w: World, s: Proc, b: Watch, acts: seq<Act>)
    requires Inv(s) && OwningThread(w) && Tracks(s, b)
    ensures Inv(Inside(w, s, b.t, b.write, acts).proc)
    ensures Tracks(Inside(w, s, b.t, b.write, acts).proc, b)
  {
    TracksBody(w, s, b, acts);
    var body := RunBody(w, s, b.t, acts);
    FinishInv(w, body.proc, b.t, true);
    TracksFinish(w, body.proc, b, true);
  }

  /** What a bracket leaves behind: no transaction registered, unless the cleanup abort itself
      panicked; a transaction that reads as committed exactly if one native commit of it succeeded;
      and as the store the view then committed, or else what there was. */
  ghost predicate Clean(before: Proc, after: Proc, e: nat, write: bool, cleanup: Reply)
    requires e in before.envs && before.envs[e].env.Some?
    requires before.envs[e].env.value in before.ledger.envs
  {
    var t, n, m := before.unused, before.unused + 1, before.envs[e].env.value;
    && t in after.txns && e in after.envs
    && n in after.ledger.txns && m in after.ledger.envs
    && (cleanup != Panic ==> after.txns[t].txn == None && after.envs[e].live == [])
    && (after.txns[t].state.Committed? <==>
        CommittedSince(after.ledger.trace, |before.ledger.trace|, n))
    && after.ledger.envs[m].data ==
       if write && after.txns[t].state.Committed? then after.ledger.txns[n].view
       else before.ledger.envs[m].data
  }

  lemma CleanupIsClean(w: World, before: Proc, s: Proc, b: Watch)
    requires Inv(s) && OwningThread(w) && Tracks(s, b)
    requires b.e in before.envs && before.envs[b.e].env == Some(b.m) && b.m in before.ledger.envs
    requires b.t == before.unused && b.n == before.unused + 1
    requires b.from == |before.ledger.trace| && b.data == before.ledger.envs[b.m].data
    ensures var a := AbortStep(w, s, b.t);
            Inv(a.proc) && Clean(before, a.proc, b.e, b.write, a.reply)
  {
    AbortInv(w, s, b.t);
    TracksAbort(w, s, b);
  }

  lemma BeganUsable(w: World, s: Proc, e: nat, write: bool)
    requires Inv(s) && BeginStep(w, s, e, write).reply.Begun?
    ensures e in s.envs && s.envs[e].env.Some? && s.envs[e].env.value in s.ledger.envs
  {}

  /** For any body, whatever libmdbx answers and wherever it panics, the bracket is clean. */
  lemma BracketIsClean(w: World, s: Proc, e: nat, write: bool, acts: seq<Act>)
    requires Inv(s) && OwningThread(w) && BeginStep(w, s, e, write).reply.Begun?
    ensures e in s.envs && s.envs[e].env.Some? && s.envs[e].env.value in s.ledger.envs
    ensures var x := Bracketed(w, s, e, write, acts);
            x.Ran? && Inv(x.proc) && Clean(s, x.proc, e, write, x.cleanup)
  {
    BeganUsable(w, s, e, write);
    TracksBegin(w, s, e, write);
    BeginInv(w, s, e, write);
    var began := BeginStep(w, s, e, write).proc;
    var b := WatchOf(s, e, write);
    TracksInside(w, began, b, acts);
    CleanupIsClean(w, s, Inside(w, began, b.t, write, acts).proc, b);
  }

  /** A bracket that could not begin its transaction leaves none behind either. */
  lemma UnbegunIsClean(w: World, s: Proc, e: nat, write: bool, acts: seq<Act>)
    requires Inv(s) && !BeginStep(w, s, e, write).reply.Begun?
    ensures var x := Bracketed(w, s, e, write, acts);
            && x.NotBegun? && Inv(x.proc)
            && x.proc.txns == s.txns && x.proc.ledger.txns == s.ledger.txns
            && forall d :: d in s.envs ==> d in x.proc.envs && x.proc.envs[d].live == s.envs[d].live
  {
    BeginInv(w, s, e, write);
    if EnvRefusal(s, e).None? && s.envs[e].live == [] {
      BeginAllowed(s, e, write);
      BeginForm(w, s, e, write);
      UnbegunForm(w, s, e, write);
    }
  }

  lemma UnbegunForm(w: World, s: Proc, e: nat, write: bool)
    requires EnvRefusal(s, e).None? && s.envs[e].live == []
    requires !BeginStep(w, s, e, write).reply.Begun? && s.unused !in s.txns
    ensures var r := BeginStep(w, s, e, write).proc;
            && r.txns == s.txns && r.ledger.txns == s.ledger.txns
            && forall d :: d in s.envs ==> d in r.envs && r.envs[d].live == s.envs[d].live
  {}

  /** A write bracket that returns rather than throws has committed. */
  lemma ReturnedMeansCommitted(w: World, s: Proc, e: nat, acts: seq<Act>)
    requires BeginStep(w, s, e, true).reply.Begun? && !Bracketed(w, s, e, true, acts).threw
    ensures var x := Bracketed(w, s, e, true, acts);
            x.cleanup == Done && s.unused in x.proc.txns && x.proc.txns[s.unused].state.Committed?
  {}

  // -------------------------------------------------------------------------
  // How a body ends
  // -------------------------------------------------------------------------

  /** Whether an act, taken in state `s`, throws out of the body. */
  predicate Fails(w: World, s: Proc, t: nat, a: Act) {
    a.what.Throw? || (!a.caught && Perform(w, s, t, a.what).reply != Done)
  }

  lemma {:induction false} BodyJoins(w: World, s: Proc, t: nat, acts: seq<Act>, rest: seq<Act>)
    ensures RunBody(w, s, t, []) == Body(s, false)
    ensures var b := RunBody(w, s, t, acts);
            RunBody(w, s, t, acts + rest) == if b.threw then b else RunBody(w, b.proc, t, rest)
    decreases |acts|
  {
    if acts == [] {
      assert acts + rest == rest;
    } else if !acts[0].what.Throw? {
      assert (acts + rest)[1..] == acts[1..] + rest;
      BodyJoins(w, Perform(w, s, t, acts[0].what).proc, t, acts[1..], rest);
    }
  }

  /** A body goes on past what does not fail, and ends with what does: nothing after it happens. */
  lemma BodyNext(w: World, s: Proc, t: nat, acts: seq<Act>, a: Act, rest: seq<Act>)
    requires !RunBody(w, s, t, acts).threw
    ensures var now := RunBody(w, s, t, acts).proc;
            var next := if a.what.Throw? then now else Perform(w, now, t, a.what).proc;
            RunBody(w, s, t, acts + [a] + rest) ==
            if Fails(w, now, t, a) then Body(next, true) else RunBody(w, next, t, rest)
  {
    assert acts + [a] + rest == acts + ([a] + rest);
    BodyJoins(w, s, t, acts, [a] + rest);
    assert ([a] + rest)[1..] == rest;
  }

  /** So a whole bracket is the same whatever its body had left to do when it failed. */
  lemma NothingAfterFailure(w: World, s: Proc, e: nat, write: bool, acts: seq<Act>, a: Act,
                            rest: seq<Act>)
    requires BeginStep(w, s, e, write).reply.Begun?
    requires var t := BeginStep(w, s, e, write).reply.txn;
             var body := RunBody(w, BeginStep(w, s, e, write).proc, t, acts);
             !body.threw && Fails(w, body.proc, t, a)
    ensures Bracketed(w, s, e, write, acts + [a] + rest) == Bracketed(w, s, e, write, acts + [a])
    ensures Bracketed(w, s, e, write, acts + [a]).threw
  {
    var b := BeginStep(w, s, e, write);
    BodyNext(w, b.proc, b.reply.txn, acts, a, rest);
    BodyNext(w, b.proc, b.reply.txn, acts, a, []);
    assert acts + [a] + [] == acts + [a];
  }

  // -------------------------------------------------------------------------
  // What a body that threw leaves
  // -------------------------------------------------------------------------

  /** libmdbx was not asked to commit `n` from some point on. */
  predicate Unasked(trace: seq<Event>, from: nat, n: nat) {
    forall i :: from <= i < |trace| ==> trace[i].call != CommitTxn(n)
  }

  /** The calls from `s` to `r` ask for no commit of `n`. */
  predicate CallsNoCommit(s: Proc, r: Proc, n: nat) {
    s.ledger.trace <= r.ledger.trace && Unasked(r.ledger.trace, |s.ledger.trace|, n)
  }

  lemma AskedNoCommit(w: World, s: Proc, r: Proc, c: Call, n: nat)
    requires Asked(w, s, r, c) && !c.CommitTxn?
    ensures CallsNoCommit(s, r, n)
  {}

  lemma AbortCallsNoCommit(w: World, s: Proc, t: nat, n: nat)
    requires Inv(s)
    ensures CallsNoCommit(s, AbortStep(w, s, t).proc, n)
  {
    AbortAnswers(w, s, t);
    TxnRefusals(s, t);
    if OwnTxn(s, t) && TxnOk(s.ledger, s.pid, TxnOf(s, t)) {
      FinishAnswers(w, s, t, false);
      AskedNoCommit(w, s, AbortStep(w, s, t).proc, AbortTxn(TxnOf(s, t)), n);
    }
  }

  lemma OpCallsNoCommit(w: World, s: Proc, t: nat, next: Store, n: nat)
    requires Inv(s)
    ensures CallsNoCommit(s, TxnOpStep(w, s, t, next).proc, n)
  {
    TxnRefusals(s, t);
    if TxnRefusal(s, t).None? {
      OperationAnswers(w, s, t, next);
      AskedNoCommit(w, s, TxnOpStep(w, s, t, next).proc, TxnCall(TxnOf(s, t), next), n);
    }
  }

  lemma StatCallsNoCommit(w: World, s: Proc, t: nat, n: nat)
    requires Inv(s)
    ensures CallsNoCommit(s, TxnStatStep(w, s, t).proc, n)
  {
    TxnRefusals(s, t);
    if TxnRefusal(s, t).None? {
      StatAnswers(w, s, t);
      var u := TxnOf(s, t);
      AskedNoCommit(w, s, TxnStatStep(w, s, t).proc, EnvCall(s.ledger.txns[u].env, Some(u)), n);
    }
  }

  /** Tracked since `trace`, and no commit asked for since. */
  ghost predicate Calm(trace: seq<Event>, x: Proc, b: Watch) {
    Inv(x) && Tracks(x, b) && trace <= x.ledger.trace && Unasked(x.ledger.trace, |trace|, b.n)
  }

  lemma UnaskedJoins(a: seq<Event>, b: seq<Event>, c: seq<Event>, n: nat)
    requires a <= b <= c && Unasked(b, |a|, n) && Unasked(c, |b|, n)
    ensures Unasked(c, |a|, n)
  {
    forall i | |a| <= i < |c| ensures c[i].call != CommitTxn(n) {
      if i < |b| { assert c[i] == b[i]; }
    }
  }

  lemma ActCallsNoCommit(w: World, s: Proc, t: nat, what: What, n: nat)
    requires Inv(s) && !what.Throw? && !what.CommitHere?
    ensures CallsNoCommit(s, Perform(w, s, t, what).proc, n)
  {
    match what
    case Operate(next) => OpCallsNoCommit(w, s, t, next, n);
    case Look => StatCallsNoCommit(w, s, t, n);
    case AbortHere => AbortCallsNoCommit(w, s, t, n);
  }

  lemma ActCalm(w: World, trace: seq<Event>, x: Proc, b: Watch, what: What)
    requires Calm(trace, x, b) && OwningThread(w) && !what.Throw? && !what.CommitHere?
    ensures Calm(trace, Perform(w, x, b.t, what).proc, b)
  {
    TracksAct(w, x, b, what);
    ActCallsNoCommit(w, x, b.t, what, b.n);
    UnaskedJoins(trace, x.ledger.trace, Perform(w, x, b.t, what).proc.ledger.trace, b.n);
  }

  /** Without an act that commits, a body asks for no commit. */
  lemma BodyCallsNoCommit(w: World, trace: seq<Event>, s: Proc, b: Watch, acts: seq<Act>)
    requires OwningThread(w) && Calm(trace, s, b)
    requires forall a :: a in acts ==> !a.what.CommitHere?
    ensures Calm(trace, RunBody(w, s, b.t, acts).proc, b)
  {
    forall x, what: What | Calm(trace, x, b) && !what.CommitHere? && !what.Throw?
      ensures Calm(trace, Perform(w, x, b.t, what).proc, b)
    {
      ActCalm(w, trace, x, b, what);
    }
    BodyInduction(w, s, b.t, acts, x => Calm(trace, x, b), (what: What) => !what.CommitHere?);
  }

  lemma CommittedLater(trace: seq<Event>, later: seq<Event>, from: nat, n: nat)
    requires trace <= later && from <= |trace| && Unasked(later, |trace|, n)
    ensures CommittedSince(later, from, n) <==> CommittedSince(trace, from, n)
  {
    if CommittedSince(trace, from, n) {
      var i :| from <= i < |trace| && trace[i].call == CommitTxn(n) && trace[i].outcome == Returned(SUCCESS);
      assert later[i] == trace[i];
    }
  }

  lemma AbortKeepsStore(w: World, s: Proc, b: Watch)
    requires Inv(s) && OwningThread(w) && Tracks(s, b)
    ensures var r := AbortStep(w, s, b.t).proc;
            && Tracks(r, b) && CallsNoCommit(s, r, b.n)
            && (r.txns[b.t].state.Committed? <==> s.txns[b.t].state.Committed?)
            && r.ledger.envs[b.m].data == s.ledger.envs[b.m].data
  {
    var r := AbortStep(w, s, b.t).proc;
    TracksAbort(w, s, b);
    AbortCallsNoCommit(w, s, b.t, b.n);
    CommittedLater(s.ledger.trace, r.ledger.trace, b.from, b.n);
    assert TxnLinked(s, b.t);
    if s.txns[b.t].state.Committed? { AbortAnswers(w, s, b.t); }
  }

  /** From `body` to `r` nothing was committed: libmdbx was not asked to, and the store is the same. */
  ghost predicate NoMoreCommitted(body: Proc, r: Proc, b: Watch) {
    && Tracks(body, b) && Tracks(r, b)
    && CallsNoCommit(body, r, b.n)
    && (r.txns[b.t].state.Committed? <==> body.txns[b.t].state.Committed?)
    && r.ledger.envs[b.m].data == body.ledger.envs[b.m].data
  }

  /** What the bracket whose begin left `s` comes to. */
  function Exited(w: World, s: Proc, t: nat, write: bool, acts: seq<Act>): Proc {
    AbortStep(w, Inside(w, s, t, write, acts).proc, t).proc
  }

  lemma ThrownKeeps(w: World, s: Proc, b: Watch, acts: seq<Act>)
    requires OwningThread(w) && Inv(s) && Tracks(s, b) && RunBody(w, s, b.t, acts).threw
    ensures NoMoreCommitted(RunBody(w, s, b.t, acts).proc, Exited(w, s, b.t, b.write, acts), b)
  {
    TracksBody(w, s, b, acts);
    AbortKeepsStore(w, RunBody(w, s, b.t, acts).proc, b);
  }

  /** Whatever the body did before it threw, nothing is committed any more. */
  lemma ThrownCommitsNoMore(w: World, s: Proc, e: nat, write: bool, acts: seq<Act>)
    requires Inv(s) && OwningThread(w) && BeginStep(w, s, e, write).reply.Begun?
    requires RunBody(w, BeginStep(w, s, e, write).proc, s.unused, acts).threw
    ensures e in s.envs && s.envs[e].env.Some? && s.envs[e].env.value in s.ledger.envs
    ensures var x := Bracketed(w, s, e, write, acts);
            && x.Ran? && x.threw
            && NoMoreCommitted(RunBody(w, BeginStep(w, s, e, write).proc, s.unused, acts).proc, x.proc,
                               WatchOf(s, e, write))
  {
    BeganUsable(w, s, e, write);
    TracksBegin(w, s, e, write);
    BeginInv(w, s, e, write);
    ThrownKeeps(w, BeginStep(w, s, e, write).proc, WatchOf(s, e, write), acts);
  }

  /** Nothing was asked to be committed, and the store is what it was. */
  ghost predicate RolledBack(before: Proc, r: Proc, b: Watch) {
    && CallsNoCommit(before, r, b.n)
    && b.t in r.txns && !r.txns[b.t].state.Committed?
    && b.m in r.ledger.envs && r.ledger.envs[b.m].data == b.data
  }

  lemma RollsBack(w: World, before: Proc, s: Proc, b: Watch, acts: seq<Act>)
    requires OwningThread(w) && Inv(s) && Tracks(s, b) && CallsNoCommit(before, s, b.n)
    requires b.from == |before.ledger.trace| && (RunBody(w, s, b.t, acts).threw || !b.write)
    requires forall a :: a in acts ==> !a.what.CommitHere?
    ensures RolledBack(before, Exited(w, s, b.t, b.write, acts), b)
  {
    var trace := before.ledger.trace;
    BodyCallsNoCommit(w, trace, s, b, acts);
    var body := RunBody(w, s, b.t, acts).proc;
    AbortKeepsStore(w, body, b);
    UnaskedJoins(trace, body.ledger.trace, AbortStep(w, body, b.t).proc.ledger.trace, b.n);
  }

  /** A bracket whose body threw, and any that only reads, rolls back unless the body itself commits:
      libmdbx is never asked to commit its transaction, the state is not "committed", and the store
      is as before. */
  lemma RollsBackUnlessReturned(w: World, s: Proc, e: nat, write: bool, acts: seq<Act>)
    requires Inv(s) && OwningThread(w) && BeginStep(w, s, e, write).reply.Begun?
    requires RunBody(w, BeginStep(w, s, e, write).proc, s.unused, acts).threw || !write
    requires forall a :: a in acts ==> !a.what.CommitHere?
    ensures e in s.envs && s.envs[e].env.Some? && s.envs[e].env.value in s.ledger.envs
    ensures var x := Bracketed(w, s, e, write, acts);
            && x.Ran?
            && (x.threw <==> RunBody(w, BeginStep(w, s, e, write).proc, s.unused, acts).threw)
            && RolledBack(s, x.proc, WatchOf(s, e, write))
  {
    BeganUsable(w, s, e, write);
    TracksBegin(w, s, e, write);
    BeginInv(w, s, e, write);
    BeginCallsNoCommit(w, s, e, write, WatchOf(s, e, write).n);
    RollsBack(w, s, BeginStep(w, s, e, write).proc, WatchOf(s, e, write), acts);
  }

  lemma BeginCallsNoCommit(w: World, s: Proc, e: nat, write: bool, n: nat)
    requires Inv(s) && BeginStep(w, s, e, write).reply.Begun?
    ensures CallsNoCommit(s, BeginStep(w, s, e, write).proc, n)
  {
    EnvRefusals(s, e);
    BeginAnswers(w, s, e, write);
  }

  // -------------------------------------------------------------------------
  // When a bracket returns, and what it has stored
  // -------------------------------------------------------------------------

  /** The transaction is still accepted, and its commit would succeed. */
  predicate CanCommit(w: World, s: Proc, t: nat) {
    && TxnRefusal(s, t).None?
    && Answer(w, s.ledger, CommitTxn(s.txns[t].txn.value)) == Returned(SUCCESS)
  }

  /** A bracket returns exactly if its body does and, for a write bracket, the transaction is then
      still accepted and its commit succeeds. */
  lemma ReturnsIff(w: World, s: Proc, e: nat, write: bool, acts: seq<Act>)
    requires BeginStep(w, s, e, write).reply.Begun?
    ensures var x := Bracketed(w, s, e, write, acts);
            var t := BeginStep(w, s, e, write).reply.txn;
            var body := RunBody(w, BeginStep(w, s, e, write).proc, t, acts);
            x.Ran? && (!x.threw <==> !body.threw && (write ==> CanCommit(w, body.proc, t)))
  {
    var b := BeginStep(w, s, e, write);
    CommitDone(w, RunBody(w, b.proc, b.reply.txn, acts).proc, b.reply.txn);
  }

  lemma CommitDone(w: World, s: Proc, t: nat)
    ensures FinishStep(w, s, t, true).reply == Done <==> CanCommit(w, s, t)
  {}

  /** The store the successful operations on `n` in a history leave, from `d` on. */
  function Wrote(trace: seq<Event>, n: nat, d: Store): Store {
    if trace == [] then d
    else
      var v := trace[|trace| - 1];
      if v.call.TxnCall? && v.call.t == n && v.outcome == Returned(SUCCESS) then v.call.next
      else Wrote(trace[..|trace| - 1], n, d)
  }

  /** The ledger's view of a write transaction is what its operations made of the store. */
  predicate Sees(l: Ledger, b: Watch) {
    l.faulted
    || (b.n in l.txns && l.txns[b.n].write == b.write && b.from <= |l.trace|
        && (b.write ==> l.txns[b.n].view == Wrote(l.trace[b.from..], b.n, b.data)))
  }

  lemma MakeSees(w: World, l: Ledger, pid: nat, c: Call, b: Watch)
    requires Sees(l, b)
    ensures Sees(Make(w, l, pid, c), b)
  {
    var r := Make(w, l, pid, c);
    if !r.faulted {
      var tail := l.trace[b.from..];
      assert r.trace[b.from..] == tail + [r.trace[|l.trace|]];
      assert (tail + [r.trace[|l.trace|]])[..|tail|] == tail;
    }
  }

  function Seeing(b: Watch): Ledger -> bool { l => Sees(l, b) }

  lemma CallsKeepSight(w: World, b: Watch)
    ensures KeptByCalls(w, Seeing(b))
  {
    forall l, pid, c | Seeing(b)(l) ensures Seeing(b)(Make(w, l, pid, c)) { MakeSees(w, l, pid, c, b); }
  }

  ghost predicate Watches(s: Proc, b: Watch) { Inv(s) && Tracks(s, b) && Seeing(b)(s.ledger) }

  lemma ActSees(w: World, s: Proc, b: Watch, what: What)
    requires Seeing(b)(s.ledger) && !what.Throw?
    ensures Seeing(b)(Perform(w, s, b.t, what).proc.ledger)
  {
    CallsKeepSight(w, b);
    match what
    case Operate(next) => TxnOpLedger(w, s, b.t, next, Seeing(b));
    case Look => TxnOpLedger(w, s, b.t, EMPTY_STORE, Seeing(b));
    case CommitHere => FinishLedger(w, s, b.t, true, Seeing(b));
    case AbortHere => AbortLedger(w, s, b.t, Seeing(b));
  }

  lemma ActWatches(w: World, s: Proc, b: Watch, what: What)
    requires OwningThread(w) && Watches(s, b) && !what.Throw?
    ensures Watches(Perform(w, s, b.t, what).proc, b)
  {
    TracksAct(w, s, b, what);
    ActSees(w, s, b, what);
  }

  lemma BodySees(w: World, s: Proc, b: Watch, acts: seq<Act>)
    requires OwningThread(w) && Watches(s, b)
    ensures Watches(RunBody(w, s, b.t, acts).proc, b)
  {
    forall x, what: What | Watches(x, b) && !what.Throw?
      ensures Watches(Perform(w, x, b.t, what).proc, b)
    {
      ActWatches(w, x, b, what);
    }
    BodyInduction(w, s, b.t, acts, x => Watches(x, b), (what: What) => true);
  }

  /** What was committed is what the last successful operation made of the store. */
  ghost predicate Stored(r: Proc, b: Watch) {
    && b.t in r.txns && b.m in r.ledger.envs && b.from <= |r.ledger.trace|
    && (r.txns[b.t].state.Committed? ==>
          r.ledger.envs[b.m].data == Wrote(r.ledger.trace[b.from..], b.n, b.data))
  }

  lemma Stores(w: World, s: Proc, b: Watch, acts: seq<Act>)
    requires OwningThread(w) && Inv(s) && Tracks(s, b) && Seeing(b)(s.ledger) && b.write
    ensures Stored(Exited(w, s, b.t, b.write, acts), b)
  {
    BodySees(w, s, b, acts);
    ExitSees(w, RunBody(w, s, b.t, acts), b);
  }

  /** What a committed write bracket has stored is what the last successful operation of its body
      made of the store, or the store as it was if there was none. */
  lemma BracketStores(w: World, s: Proc, e: nat, acts: seq<Act>)
    requires Inv(s) && OwningThread(w) && BeginStep(w, s, e, true).reply.Begun?
    ensures e in s.envs && s.envs[e].env.Some? && s.envs[e].env.value in s.ledger.envs
    ensures var x := Bracketed(w, s, e, true, acts); x.Ran? && Stored(x.proc, WatchOf(s, e, true))
  {
    BeganUsable(w, s, e, true);
    TracksBegin(w, s, e, true);
    BeginInv(w, s, e, true);
    BeganSees(w, s, e);
    Stores(w, BeginStep(w, s, e, true).proc, WatchOf(s, e, true), acts);
  }

  lemma BeganSees(w: World, s: Proc, e: nat)
    requires Inv(s) && BeginStep(w, s, e, true).reply.Begun?
    ensures e in s.envs && s.envs[e].env.Some? && s.envs[e].env.value in s.ledger.envs
    ensures Sees(BeginStep(w, s, e, true).proc.ledger, WatchOf(s, e, true))
  {
    EnvRefusals(s, e);
    BeginAnswers(w, s, e, true);
    var r := BeginStep(w, s, e, true).proc;
    var tail := r.ledger.trace[|s.ledger.trace|..];
    assert tail == [r.ledger.trace[|s.ledger.trace|]] && tail[..0] == [];
  }

  lemma ExitSees(w: World, body: Body, b: Watch)
    requires OwningThread(w) && Watches(body.proc, b)
    ensures var inside := if body.threw || !b.write then body.proc
                          else FinishStep(w, body.proc, b.t, true).proc;
            Watches(AbortStep(w, inside, b.t).proc, b)
  {
    ActWatches(w, body.proc, b, CommitHere);
    ActWatches(w, body.proc, b, AbortHere);
    ActWatches(w, FinishStep(w, body.proc, b.t, true).proc, b, AbortHere);
  }
}
