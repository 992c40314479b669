/** The handle lifecycle, as functions on the memory of one process: what every entry point and
    finalizer does to the handles, the registries and the native ledger. The classes of module
    Lifecycle are proved to do exactly this; module Safety says what it amounts to. */
module Handles {
  import opened Bytes
  import opened ReferenceModel
  import opened Native

  datatype TxnState = Active | Committed | Aborted

  type Roots = (Option<nat>, Option<nat>)
  const NO_ROOTS: Roots := (None, None)

  datatype EnvHandle = EnvHandle(
    env: Option<nat>, poisoned: bool, pid: nat, key: string, live: seq<nat>, roots: Roots)

  datatype TxnHandle = TxnHandle(
    txn: Option<nat>, owner: Option<nat>, state: TxnState, write: bool, poisoned: bool, pid: nat)

  datatype Pointer = EnvPointer(n: nat) | TxnPointer(n: nat) | RootPointer(at: nat)

  /** The memory of one process. Handles are known by number; a number not in the map is an
      external pointer whose finalizer has run. `past` are the pids of its ancestors. */
  datatype Proc = Proc(
    pid: nat,
    past: set<nat>,
    envs: map<nat, EnvHandle>,
    txns: map<nat, TxnHandle>,
    openEnvs: seq<nat>,
    abandoned: seq<Pointer>,
    ledger: Ledger,
    unused: nat)

  datatype Refusal =
    | ClosedEnv | ForeignEnv | PoisonedEnv
    | NoTxn | ForeignTxn | PoisonedTxn | Finished(state: TxnState) | OwnerClosed | OwnerPoisoned
    | AlreadyOpen | TxnOpen | TxnsStillOpen

  datatype Reply =
    | Done | Opened(env: nat) | Begun(txn: nat)
    | Refused(why: Refusal) | Failed(rc: int) | RolledBack | Panic

  datatype Result = Result(proc: Proc, reply: Reply)

  // -------------------------------------------------------------------------
  // Pieces
  // -------------------------------------------------------------------------

  /** std::remove followed by erase. */
  function Without(s: seq<nat>, x: nat): (r: seq<nat>)
    ensures forall y :: y in r <==> y in s && y != x
    ensures x !in s ==> r == s
  {
    if s == [] then []
    else
      assert s == [s[0]] + s[1..];
      (if s[0] == x then [] else [s[0]]) + Without(s[1..], x)
  }

  function FindOpenEnv(s: Proc, key: string): (found: Option<nat>)
    requires forall e :: e in s.openEnvs ==> e in s.envs
    ensures found.Some? <==>
      exists e :: e in s.openEnvs && s.envs[e].key == key && s.envs[e].pid == s.pid
  {
    FindFrom(s, key, 0)
  }

  function FindFrom(s: Proc, key: string, i: nat): (found: Option<nat>)
    requires i <= |s.openEnvs|
    requires forall e :: e in s.openEnvs ==> e in s.envs
    ensures found.Some? <==>
      exists e :: e in s.openEnvs[i..] && s.envs[e].key == key && s.envs[e].pid == s.pid
    decreases |s.openEnvs| - i
  {
    if i == |s.openEnvs| then None
    else
      assert s.openEnvs[i..] == [s.openEnvs[i]] + s.openEnvs[i + 1..];
      var h := s.envs[s.openEnvs[i]];
      if h.key == key && h.pid == s.pid then Some(s.openEnvs[i]) else FindFrom(s, key, i + 1)
  }

  /** What is found is what was asked for. */
  lemma {:induction false} FoundIsOpen(s: Proc, key: string, i: nat)
    requires i <= |s.openEnvs|
    requires forall e :: e in s.openEnvs ==> e in s.envs
    requires FindFrom(s, key, i).Some?
    ensures var e := FindFrom(s, key, i).value;
            e in s.openEnvs && s.envs[e].key == key && s.envs[e].pid == s.pid
    decreases |s.openEnvs| - i
  {
    var h := s.envs[s.openEnvs[i]];
    if !(h.key == key && h.pid == s.pid) { FoundIsOpen(s, key, i + 1); }
  }

  function Abandon(list: seq<Pointer>, p: Option<Pointer>): seq<Pointer> {
    match p
    case None => list
    case Some(x) => list + [x]
  }

  function RootOf(r: Option<nat>): Option<Pointer> {
    match r
    case None => None
    case Some(at) => Some(RootPointer(at))
  }

  function AbandonEnv(list: seq<Pointer>, h: EnvHandle): seq<Pointer> {
    Abandon(Abandon(Abandon(list,
                            if h.env.Some? then Some(EnvPointer(h.env.value)) else None),
                    RootOf(h.roots.0)),
            RootOf(h.roots.1))
  }

  function AbandonTxn(list: seq<Pointer>, txn: Option<nat>): seq<Pointer> {
    Abandon(list, if txn.Some? then Some(TxnPointer(txn.value)) else None)
  }

  function SetEnv(s: Proc, e: nat, h: EnvHandle): Proc { s.(envs := s.envs[e := h]) }
  function SetTxn(s: Proc, t: nat, h: TxnHandle): Proc { s.(txns := s.txns[t := h]) }

  function Owner(s: Proc, h: TxnHandle): Option<EnvHandle> {
    if h.owner.Some? && h.owner.value in s.envs then Some(s.envs[h.owner.value]) else None
  }

  /** mdbx_r_run_guarded() with no poison callback. */
  function Guard(w: World, s: Proc, c: Call): (Proc, Outcome) {
    (s.(ledger := Make(w, s.ledger, s.pid, c)), Answer(w, s.ledger, c))
  }

  function PoisonEnv(s: Proc, e: nat): Proc {
    if e in s.envs then SetEnv(s, e, s.envs[e].(poisoned := true)) else s
  }

  function PoisonTxn(s: Proc, t: nat): Proc
    requires t in s.txns
  {
    var h := s.txns[t].(poisoned := true);
    var poisoned := SetTxn(s, t, h);
    if h.owner.Some? then PoisonEnv(poisoned, h.owner.value) else poisoned
  }

  function GuardEnv(w: World, s: Proc, e: nat, c: Call): (Proc, Outcome) {
    var (made, o) := Guard(w, s, c);
    (if o.Panicked? then PoisonEnv(made, e) else made, o)
  }

  function GuardTxn(w: World, s: Proc, t: nat, c: Call): (Proc, Outcome)
    requires t in s.txns
  {
    var (made, o) := Guard(w, s, c);
    (if o.Panicked? then PoisonTxn(made, t) else made, o)
  }

  function RecordHeapRoots(w: World, s: Proc, e: nat): Proc {
    if e in s.envs && s.envs[e].env.Some? && !s.envs[e].poisoned && s.envs[e].pid == s.pid then
      var n := s.envs[e].env.value;
      SetEnv(s, e, s.envs[e].(roots := w.roots(s.ledger.trace, n)))
      .(ledger := ReadRoots(s.ledger, s.pid, n))
    else s
  }

  function UnregisterTxn(s: Proc, t: nat): Proc
    requires t in s.txns
  {
    var h := s.txns[t];
    if h.owner.Some? && h.owner.value in s.envs then
      var o := s.envs[h.owner.value];
      SetEnv(s, h.owner.value, o.(live := Without(o.live, t)))
    else s
  }

  /** Drop a transaction from its environment's registry and record how it ended. */
  function Unlink(s: Proc, t: nat, state: TxnState): Proc
    requires t in s.txns
  {
    SetTxn(UnregisterTxn(s, t), t, s.txns[t].(txn := None, owner := None, state := state))
  }

  function MarkFinished(w: World, s: Proc, t: nat, state: TxnState): Proc
    requires t in s.txns
  {
    var h := s.txns[t];
    Unlink(if h.write && h.owner.Some? then RecordHeapRoots(w, s, h.owner.value) else s, t, state)
  }

  /** close_handle: `propagate` is false for the finalizer and for a failed open. */
  function CloseHandle(w: World, s: Proc, e: nat, propagate: bool): Result
    requires e in s.envs
  {
    var h := s.envs[e];
    if h.env.None? then Result(s, Done)
    else
      var out := s.(openEnvs := Without(s.openEnvs, e));
      if h.pid != s.pid then
        Result(SetEnv(out, e, h.(env := None)).(abandoned := AbandonEnv(s.abandoned, h)),
               if propagate then Refused(ForeignEnv) else Done)
      else if h.poisoned then
        Result(SetEnv(out, e, h.(env := None)).(abandoned := AbandonEnv(s.abandoned, h)), Done)
      else
        var (made, o) := GuardEnv(w, out, e, CloseEnv(h.env.value));
        Result(SetEnv(made, e, made.envs[e].(env := None)),
               if !propagate then Done
               else if o.Panicked? then Panic
               else if o.rc != SUCCESS then Failed(o.rc)
               else Done)
  }

  /** End a transaction as the finalizers do: a call to libmdbx where one may be made, and the
      pointer given up unless that call returned. */
  function EndOrAbandon(w: World, s: Proc, t: nat, mayCall: bool): Proc
    requires t in s.txns
  {
    var h := s.txns[t];
    if mayCall && h.txn.Some? then
      var made := GuardTxn(w, s, t, AbortTxn(h.txn.value)).0;
      if Answer(w, s.ledger, AbortTxn(h.txn.value)).Returned? then made
      else made.(abandoned := AbandonTxn(made.abandoned, h.txn))
    else s.(abandoned := AbandonTxn(s.abandoned, h.txn))
  }

  /** The body of the loop in detach_txns. */
  function DetachOne(w: World, s: Proc, t: nat, usable: bool): Proc
    requires t in s.txns
  {
    var made := EndOrAbandon(w, s, t, usable && !s.txns[t].poisoned);
    SetTxn(made, t, made.txns[t].(txn := None, state := Aborted, owner := None))
  }

  function DetachEach(w: World, s: Proc, live: seq<nat>, usable: bool): (r: Proc)
    requires forall t :: t in live ==> t in s.txns
    ensures r.envs.Keys == s.envs.Keys && r.txns.Keys == s.txns.Keys
    decreases |live|
  {
    if live == [] then s
    else DetachEach(w, DetachOne(w, s, live[0], usable), live[1..], usable)
  }

  /** Whether libmdbx may be called on this environment at all. */
  predicate UsableHandle(s: Proc, h: EnvHandle) {
    h.env.Some? && !h.poisoned && h.pid == s.pid
  }

  /** detach_txns: `usable` is decided once, before the loop. */
  function DetachTxns(w: World, s: Proc, e: nat): Proc
    requires e in s.envs && forall t :: t in s.envs[e].live ==> t in s.txns
  {
    var each := DetachEach(w, s, s.envs[e].live, UsableHandle(s, s.envs[e]));
    SetEnv(each, e, each.envs[e].(live := []))
  }

  function DeleteEnv(s: Proc, e: nat): Proc { s.(envs := s.envs - {e}) }
  function DeleteTxn(s: Proc, t: nat): Proc { s.(txns := s.txns - {t}) }

  // -------------------------------------------------------------------------
  // Who may be used
  // -------------------------------------------------------------------------

  /** env_from_sexp: why this environment is refused, if it is. */
  function EnvRefusal(s: Proc, e: nat): Option<Refusal> {
    if e !in s.envs then Some(ClosedEnv)
    else
      var h := s.envs[e];
      if h.pid != s.pid then Some(ForeignEnv)
      else if h.env.None? then Some(ClosedEnv)
      else if h.poisoned then Some(PoisonedEnv)
      else None
  }

  /** txn_from_sexp. */
  function TxnRefusal(s: Proc, t: nat): Option<Refusal> {
    if t !in s.txns then Some(NoTxn)
    else
      var h := s.txns[t];
      if h.pid != s.pid then Some(ForeignTxn)
      else if h.poisoned then Some(PoisonedTxn)
      else if h.txn.None? then Some(Finished(h.state))
      else match Owner(s, h)
        case None => Some(OwnerClosed)
        case Some(o) =>
          if o.env.None? then Some(OwnerClosed)
          else if o.poisoned then Some(OwnerPoisoned)
          else None
  }

  datatype Report = InvalidHandle | PoisonedNow | FailedNow | ActiveNow | CommittedNow | AbortedNow

  /** mdbx_txn_state_, given whether libmdbx has marked a running transaction erroneous. */
  function TxnReport(s: Proc, t: nat, erroneous: bool): Report {
    if t !in s.txns then InvalidHandle
    else
      var h := s.txns[t];
      if h.pid != s.pid then InvalidHandle
      else if h.state.Active? && (h.poisoned || (Owner(s, h).Some? && Owner(s, h).value.poisoned))
      then PoisonedNow
      else match h.state
        case Active => if h.txn.Some? && erroneous then FailedNow else ActiveNow
        case Committed => CommittedNow
        case Aborted => AbortedNow
  }

  // -------------------------------------------------------------------------
  // Steps
  // -------------------------------------------------------------------------

  datatype Step =
    | Open(key: string, found: Store)
    | Close(e: nat)
    | Begin(e: nat, write: bool)
    | Commit(t: nat)
    | Abort(t: nat)
    | EnvOp(e: nat, inTxn: bool)        // inTxn: stat and info reuse the live transaction
    | TxnStat(t: nat)
    | TxnOp(t: nat, next: Store)
    | FinalizeEnv(e: nat)
    | FinalizeTxn(t: nat)
    | Fork(child: nat)                  // this process is the child from here on

  /** Configure and open environment `n`, which the unregistered handle `e` has just created. */
  function OpenCreated(w: World, s: Proc, e: nat, n: nat, found: Store): Result
    requires e in s.envs
  {
    var (made, o) := GuardEnv(w, s, e, OpenEnv(n, found));
    if o.Panicked? then
      Result(DeleteEnv(made.(abandoned := AbandonEnv(made.abandoned, made.envs[e])), e), Panic)
    else if o.rc != SUCCESS then
      Result(DeleteEnv(CloseHandle(w, made, e, false).proc, e), Failed(o.rc))
    else
      Result(RecordHeapRoots(w, made, e).(openEnvs := made.openEnvs + [e]), Opened(e))
  }

  /** Create environment `n` for the handle `e` just allocated, and open it. */
  function CreateCall(w: World, s: Proc, e: nat, n: nat, found: Store): Result
    requires e in s.envs
  {
    var (made, o) := GuardEnv(w, s, e, CreateEnv(n));
    if o.Panicked? then Result(DeleteEnv(made, e), Panic)
    else if o.rc != SUCCESS then Result(DeleteEnv(made, e), Failed(o.rc))
    else OpenCreated(w, SetEnv(made, e, made.envs[e].(env := Some(n))), e, n, found)
  }

  function OpenNew(w: World, s: Proc, key: string, found: Store): Result {
    var h := EnvHandle(None, false, s.pid, key, [], NO_ROOTS);
    CreateCall(w, SetEnv(s, s.unused, h).(unused := s.unused + 2), s.unused, s.unused + 1, found)
  }

  /** mdbx_env_open_. */
  function OpenStep(w: World, s: Proc, key: string, found: Store): Result
    requires forall e :: e in s.openEnvs ==> e in s.envs
  {
    if FindOpenEnv(s, key).Some? then Result(s, Refused(AlreadyOpen))
    else OpenNew(w, s, key, found)
  }

  function CloseStep(w: World, s: Proc, e: nat): Result
    requires e in s.envs ==> forall t :: t in s.envs[e].live ==> t in s.txns
  {
    if e !in s.envs then Result(s, Done)
    else
      var detached := if s.envs[e].poisoned then DetachTxns(w, s, e) else s;
      if detached.envs[e].live != [] then Result(detached, Refused(TxnsStillOpen))
      else CloseHandle(w, detached, e, true)
  }

  function RegisterTxn(s: Proc, t: nat, e: nat): Proc
    requires e in s.envs
  {
    SetEnv(s, e, s.envs[e].(live := s.envs[e].live + [t]))
  }

  /** Begin native transaction `n` on `env` for the handle `t` just allocated. */
  function BeginCall(w: World, s: Proc, e: nat, t: nat, env: nat, n: nat): Result
    requires e in s.envs && t in s.txns
  {
    var (made, o) := GuardEnv(w, s, e, BeginTxn(env, n, s.txns[t].write));
    if o.Panicked? then Result(DeleteTxn(made, t), Panic)
    else if o.rc != SUCCESS then Result(DeleteTxn(made, t), Failed(o.rc))
    else Result(RegisterTxn(SetTxn(made, t, made.txns[t].(txn := Some(n))), t, e), Begun(t))
  }

  /** A transaction handle on `e` allocated, holding nothing yet. */
  function AllocateTxn(s: Proc, e: nat, write: bool): Proc {
    SetTxn(s, s.unused, TxnHandle(None, Some(e), Active, write, false, s.pid)).(unused := s.unused + 2)
  }

  /** mdbx_txn_begin_, once the environment is known to be usable and to have no transaction. */
  function BeginOn(w: World, s: Proc, e: nat, env: nat, write: bool): Result
    requires e in s.envs
  {
    BeginCall(w, AllocateTxn(s, e, write), e, s.unused, env, s.unused + 1)
  }

  function BeginStep(w: World, s: Proc, e: nat, write: bool): Result {
    match EnvRefusal(s, e)
    case Some(why) => Result(s, Refused(why))
    case None =>
      if s.envs[e].live != [] then Result(s, Refused(TxnOpen))
      else BeginOn(w, s, e, s.envs[e].env.value, write)
  }

  /** finish_txn, once the transaction is known to be usable. */
  function FinishOn(w: World, s: Proc, t: nat, n: nat, commit: bool): Result
    requires t in s.txns
  {
    var (made, o) := GuardTxn(w, s, t, if commit then CommitTxn(n) else AbortTxn(n));
    if o.Panicked? then Result(made, Panic)
    else if o.rc == THREAD_MISMATCH then Result(made, Failed(o.rc))
    else
      Result(MarkFinished(w, made, t, if commit && o.rc == SUCCESS then Committed else Aborted),
             if o.rc == RESULT_TRUE then RolledBack
             else if o.rc != SUCCESS then Failed(o.rc)
             else Done)
  }

  function FinishStep(w: World, s: Proc, t: nat, commit: bool): Result {
    match TxnRefusal(s, t)
    case Some(why) => Result(s, Refused(why))
    case None => FinishOn(w, s, t, s.txns[t].txn.value, commit)
  }

  /** mdbx_txn_abort_: a poisoned ownership graph is ended without libmdbx. */
  function AbortStep(w: World, s: Proc, t: nat): Result {
    if t !in s.txns || s.txns[t].txn.None? then Result(s, Done)
    else
      var h := s.txns[t];
      var o := Owner(s, h);
      if h.pid == s.pid && (h.poisoned || o.None? || o.value.env.None? || o.value.poisoned) then
        Result(MarkFinished(w, s.(abandoned := AbandonTxn(s.abandoned, h.txn)), t, Aborted), Done)
      else FinishStep(w, s, t, false)
  }

  function ReplyTo(o: Outcome): Reply {
    if o.Panicked? then Panic else if o.rc != SUCCESS then Failed(o.rc) else Done
  }

  function EnvCallOn(w: World, s: Proc, e: nat, c: Call): Result {
    Result(GuardEnv(w, s, e, c).0, ReplyTo(GuardEnv(w, s, e, c).1))
  }

  function TxnCallOn(w: World, s: Proc, t: nat, c: Call): Result
    requires t in s.txns
  {
    Result(GuardTxn(w, s, t, c).0, ReplyTo(GuardTxn(w, s, t, c).1))
  }

  function CurrentTxn(s: Proc, live: seq<nat>): Option<nat> {
    if live == [] then None
    else if live[0] in s.txns && s.txns[live[0]].txn.Some? then s.txns[live[0]].txn
    else CurrentTxn(s, live[1..])
  }

  function EnvOpStep(w: World, s: Proc, e: nat, inTxn: bool): Result {
    match EnvRefusal(s, e)
    case Some(why) => Result(s, Refused(why))
    case None =>
      var under := if inTxn then CurrentTxn(s, s.envs[e].live) else None;
      EnvCallOn(w, s, e, EnvCall(s.envs[e].env.value, under))
  }

  function TxnStatStep(w: World, s: Proc, t: nat): Result {
    match TxnRefusal(s, t)
    case Some(why) => Result(s, Refused(why))
    case None =>
      var e := s.txns[t].owner.value;
      EnvCallOn(w, s, e, EnvCall(s.envs[e].env.value, s.txns[t].txn))
  }

  function TxnOpStep(w: World, s: Proc, t: nat, next: Store): Result {
    match TxnRefusal(s, t)
    case Some(why) => Result(s, Refused(why))
    case None => TxnCallOn(w, s, t, TxnCall(s.txns[t].txn.value, next))
  }

  function FinalizeEnvStep(w: World, s: Proc, e: nat): Proc
    requires e in s.envs ==> forall t :: t in s.envs[e].live ==> t in s.txns
  {
    if e !in s.envs then s
    else DeleteEnv(CloseHandle(w, DetachTxns(w, s, e), e, false).proc, e)
  }

  predicate UsableOwner(s: Proc, h: TxnHandle, o: EnvHandle) {
    o.env.Some? && !o.poisoned && h.pid == s.pid
  }

  function FinalizeTxnStep(w: World, s: Proc, t: nat): Proc {
    if t !in s.txns then s
    else
      var h := s.txns[t];
      var o := Owner(s, h);
      if h.txn.None? then DeleteTxn(UnregisterTxn(s, t), t)
      else
        var mayCall := !h.poisoned && o.Some? && UsableOwner(s, h, o.value);
        DeleteTxn(MarkFinished(w, EndOrAbandon(w, s, t, mayCall), t, Aborted), t)
  }

  /** The memory of a forked child. A child's pid is that of none of its ancestors. */
  function ForkStep(s: Proc, child: nat): Proc {
    if child == s.pid || child in s.past then s else s.(pid := child, past := s.past + {s.pid})
  }

  /** The pointers a step follows lead to handles that exist. */
  predicate NoDangling(s: Proc) {
    && (forall e :: e in s.openEnvs ==> e in s.envs)
    && (forall e, t :: e in s.envs && t in s.envs[e].live ==> t in s.txns)
  }

  function Do(w: World, s: Proc, step: Step): Result
    requires NoDangling(s)
  {
    match step
    case Open(key, found) => OpenStep(w, s, key, found)
    case Close(e) => CloseStep(w, s, e)
    case Begin(e, write) => BeginStep(w, s, e, write)
    case Commit(t) => FinishStep(w, s, t, true)
    case Abort(t) => AbortStep(w, s, t)
    case EnvOp(e, inTxn) => EnvOpStep(w, s, e, inTxn)
    case TxnStat(t) => TxnStatStep(w, s, t)
    case TxnOp(t, next) => TxnOpStep(w, s, t, next)
    case FinalizeEnv(e) => Result(FinalizeEnvStep(w, s, e), Done)
    case FinalizeTxn(t) => Result(FinalizeTxnStep(w, s, t), Done)
    case Fork(child) => Result(ForkStep(s, child), Done)
  }

  /** A process that has just loaded the package. */
  function Start(pid: nat): Proc { Proc(pid, {}, map[], map[], [], [], NO_HANDLES, 0) }
}
