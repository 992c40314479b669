/** libmdbx as this package sees it: a ledger of the native handles it has given out, and
    which calls its documentation allows on them.

    A call names native handles only. What it does to the ledger, and whether it was allowed,
    is decided here without reference to anything the package keeps, so "no forbidden call is
    ever made" is a statement about the package and not about this module. */
module Native {
  import opened Bytes
  import opened ReferenceModel

  const SUCCESS := 0
  const RESULT_TRUE := -1
  const THREAD_MISMATCH := -30416

  datatype Call =
    | CreateEnv(e: nat)
    | OpenEnv(e: nat, found: Store)             // options, geometry, open and get_flags
    | CloseEnv(e: nat)
    | BeginTxn(e: nat, t: nat, write: bool)
    | CommitTxn(t: nat)
    | AbortTxn(t: nat)
    | EnvCall(e: nat, under: Option<nat>)       // stat, info, sync, flags, path, reader check
    | TxnCall(t: nat, next: Store)              // any operation; on success its view is `next`

  datatype Outcome = Returned(rc: int) | Panicked

  datatype Event = Event(pid: nat, call: Call, outcome: Outcome)

  /** How libmdbx answers. An answer may depend on everything called so far. `roots` is where
      an environment's page-number lists start. */
  datatype World = World(
    outcome: (seq<Event>, Call) -> Outcome,
    roots: (seq<Event>, nat) -> (Option<nat>, Option<nat>))

  /** mdbx_txn_abort() never reports a thread mismatch to the thread that began the
      transaction, and R has one thread. */
  ghost predicate OwningThread(w: World) {
    forall history, t :: w.outcome(history, AbortTxn(t)) != Returned(THREAD_MISMATCH)
  }

  // Broken: libmdbx panicked in a call on it. Lost: it panicked in the close itself.
  datatype EnvStatus = Usable | Broken | Closed | Lost

  datatype NativeEnv = NativeEnv(pid: nat, status: EnvStatus, data: Store)
  datatype NativeTxn = NativeTxn(env: nat, write: bool, ended: bool, view: Store)

  /** A read of environment `env`, when `at` guarded calls had been made. */
  datatype Peek = Peek(pid: nat, env: nat, at: nat)

  datatype Ledger = Ledger(
    envs: map<nat, NativeEnv>,
    txns: map<nat, NativeTxn>,
    trace: seq<Event>,          // guarded calls, oldest first
    peeks: seq<Peek>,           // unguarded reads of an environment's list starts
    faulted: bool)              // a forbidden call has been made

  predicate EnvOk(l: Ledger, pid: nat, e: nat) {
    e in l.envs && l.envs[e].pid == pid && l.envs[e].status.Usable?
  }

  predicate TxnOk(l: Ledger, pid: nat, t: nat) {
    t in l.txns && !l.txns[t].ended && EnvOk(l, pid, l.txns[t].env)
  }

  /** No transaction begun on `e` is still running. */
  predicate Idle(l: Ledger, e: nat) {
    forall t :: t in l.txns && l.txns[t].env == e ==> l.txns[t].ended
  }

  predicate Allowed(l: Ledger, pid: nat, c: Call) {
    match c
    case CreateEnv(e) => e !in l.envs
    case OpenEnv(e, _) => EnvOk(l, pid, e)
    case CloseEnv(e) => EnvOk(l, pid, e) && Idle(l, e)
    case BeginTxn(e, t, _) => EnvOk(l, pid, e) && Idle(l, e) && t !in l.txns
    case CommitTxn(t) => TxnOk(l, pid, t)
    case AbortTxn(t) => TxnOk(l, pid, t)
    case EnvCall(e, None) => EnvOk(l, pid, e)
    case EnvCall(e, Some(t)) => EnvOk(l, pid, e) && TxnOk(l, pid, t) && l.txns[t].env == e
    case TxnCall(t, _) => TxnOk(l, pid, t)
  }

  /** The environment a call touches, when the ledger knows it. */
  function Touches(l: Ledger, c: Call): Option<nat> {
    match c
    case CreateEnv(e) => None
    case OpenEnv(e, _) => Some(e)
    case CloseEnv(e) => Some(e)
    case BeginTxn(e, _, _) => Some(e)
    case EnvCall(e, _) => Some(e)
    case CommitTxn(t) => if t in l.txns then Some(l.txns[t].env) else None
    case AbortTxn(t) => if t in l.txns then Some(l.txns[t].env) else None
    case TxnCall(t, _) => if t in l.txns then Some(l.txns[t].env) else None
  }

  function SetStatus(l: Ledger, e: nat, status: EnvStatus): Ledger {
    if e in l.envs then l.(envs := l.envs[e := l.envs[e].(status := status)]) else l
  }

  function Publish(l: Ledger, e: nat, data: Store): Ledger {
    if e in l.envs then l.(envs := l.envs[e := l.envs[e].(data := data)]) else l
  }

  function End(l: Ledger, t: nat): Ledger {
    if t in l.txns then l.(txns := l.txns[t := l.txns[t].(ended := true)]) else l
  }

  /** What a call that returns does. Every commit result other than a thread mismatch ends the
      transaction; a close that returns ends the environment whatever it reports. */
  function Effect(l: Ledger, pid: nat, c: Call, rc: int): Ledger {
    match c
    case CreateEnv(e) =>
      if rc == SUCCESS then l.(envs := l.envs[e := NativeEnv(pid, Usable, EMPTY_STORE)]) else l
    case OpenEnv(e, found) => if rc == SUCCESS then Publish(l, e, found) else l
    case CloseEnv(e) => SetStatus(l, e, Closed)
    case BeginTxn(e, t, write) =>
      if rc == SUCCESS && e in l.envs
      then l.(txns := l.txns[t := NativeTxn(e, write, false, l.envs[e].data)]) else l
    case CommitTxn(t) =>
      if rc == THREAD_MISMATCH then l
      else if rc == SUCCESS && t in l.txns && l.txns[t].write
      then Publish(End(l, t), l.txns[t].env, l.txns[t].view)
      else End(l, t)
    case AbortTxn(t) => if rc == THREAD_MISMATCH then l else End(l, t)
    case EnvCall(e, _) => l
    case TxnCall(t, next) =>
      if rc == SUCCESS && t in l.txns && l.txns[t].write
      then l.(txns := l.txns[t := l.txns[t].(view := next)]) else l
  }

  /** A panic leaves the environment the call touched with its invariants broken. */
  function AfterPanic(l: Ledger, c: Call): Ledger {
    match Touches(l, c)
    case None => l
    case Some(e) => SetStatus(l, e, if c.CloseEnv? then Lost else Broken)
  }

  function Record(l: Ledger, pid: nat, c: Call, o: Outcome): Ledger {
    var next := if o.Panicked? then AfterPanic(l, c) else Effect(l, pid, c, o.rc);
    next.(trace := l.trace + [Event(pid, c, o)], faulted := l.faulted || !Allowed(l, pid, c))
  }

  const NO_HANDLES := Ledger(map[], map[], [], [], false)

  function Answer(w: World, l: Ledger, c: Call): Outcome { w.outcome(l.trace, c) }

  function Make(w: World, l: Ledger, pid: nat, c: Call): Ledger {
    Record(l, pid, c, Answer(w, l, c))
  }

  /** mdbx_r_env_heap_roots() reads the environment outside any guard. */
  function ReadRoots(l: Ledger, pid: nat, e: nat): Ledger {
    l.(peeks := l.peeks + [Peek(pid, e, |l.trace|)], faulted := l.faulted || !EnvOk(l, pid, e))
  }
}
