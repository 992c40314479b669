/** The handles and the functions that change them in place, proved to do what module Handles says.

    External pointers are numbers: `envs` and `txns` hold the handles allocated and not yet
    deleted, and a number that is in neither is a pointer whose finalizer has run. Clearing the
    pointer and deleting the handle are one step, as nothing runs between them. */
module Lifecycle {
  import opened Bytes
  import opened ReferenceModel
  import opened Native
  import H = Handles
  import B = Bracket
  import Invariant
  import Preservation

  class EnvHandle {
    const id: nat
    const pid: nat
    const key: string
    var env: Option<nat>
    var poisoned: bool
    var liveTxns: seq<TxnHandle>
    var heapRoots: H.Roots

    constructor (id: nat, pid: nat, key: string)
      ensures this.id == id && this.pid == pid && this.key == key
      ensures env == None && !poisoned && liveTxns == [] && heapRoots == H.NO_ROOTS
    {
      this.id, this.pid, this.key := id, pid, key;
      env, poisoned, liveTxns, heapRoots := None, false, [], H.NO_ROOTS;
    }

    ghost function View(): H.EnvHandle
      reads this
    {
      H.EnvHandle(env, poisoned, pid, key, TxnIds(liveTxns), heapRoots)
    }
  }

  class TxnHandle {
    const id: nat
    const pid: nat
    const write: bool
    var txn: Option<nat>
    var owner: EnvHandle?
    var state: H.TxnState
    var poisoned: bool

    constructor (id: nat, pid: nat, write: bool, owner: EnvHandle)
      ensures this.id == id && this.pid == pid && this.write == write && this.owner == owner
      ensures txn == None && state == H.Active && !poisoned
    {
      this.id, this.pid, this.write, this.owner := id, pid, write, owner;
      txn, state, poisoned := None, H.Active, false;
    }

    ghost function View(): H.TxnHandle
      reads this
    {
      H.TxnHandle(txn, if owner == null then None else Some(owner.id), state, write, poisoned, pid)
    }
  }

  ghost function TxnIds(s: seq<TxnHandle>): seq<nat> { seq(|s|, i requires 0 <= i < |s| => s[i].id) }
  ghost function EnvIds(s: seq<EnvHandle>): seq<nat> { seq(|s|, i requires 0 <= i < |s| => s[i].id) }

  /** std::remove followed by erase, on each of the two registries. */
  function EraseTxn(s: seq<TxnHandle>, x: TxnHandle): (r: seq<TxnHandle>)
    ensures forall y :: y in r ==> y in s
  {
    if s == [] then [] else (if s[0] == x then [] else [s[0]]) + EraseTxn(s[1..], x)
  }

  function EraseEnv(s: seq<EnvHandle>, x: EnvHandle): (r: seq<EnvHandle>)
    ensures forall y :: y in r ==> y in s && y != x
  {
    if s == [] then [] else (if s[0] == x then [] else [s[0]]) + EraseEnv(s[1..], x)
  }

  lemma {:induction false} EraseTxnIds(s: seq<TxnHandle>, x: TxnHandle)
    requires forall y :: y in s && y.id == x.id ==> y == x
    ensures TxnIds(EraseTxn(s, x)) == H.Without(TxnIds(s), x.id)
  {
    if s != [] {
      EraseTxnIds(s[1..], x);
      assert TxnIds(s)[1..] == TxnIds(s[1..]);
      assert s[0] in s && (s[0].id == x.id <==> s[0] == x);
    }
  }

  lemma {:induction false} EraseEnvIds(s: seq<EnvHandle>, x: EnvHandle)
    requires forall y :: y in s && y.id == x.id ==> y == x
    ensures EnvIds(EraseEnv(s, x)) == H.Without(EnvIds(s), x.id)
  {
    if s != [] {
      EraseEnvIds(s[1..], x);
      assert EnvIds(s)[1..] == EnvIds(s[1..]);
      assert s[0] in s && (s[0].id == x.id <==> s[0] == x);
    }
  }

  class Process {
    const world: World
    var pid: nat
    var past: set<nat>
    var envs: map<nat, EnvHandle>
    var txns: map<nat, TxnHandle>
    var openEnvs: seq<EnvHandle>
    var abandoned: seq<H.Pointer>
    var ledger: Ledger
    var unused: nat

    predicate KnownEnv(h: EnvHandle)
      reads this`envs
    {
      h.id in envs && envs[h.id] == h
    }

    predicate KnownTxn(h: TxnHandle)
      reads this`txns
    {
      h.id in txns && txns[h.id] == h
    }

    ghost predicate EnvsValid()
      reads this`envs, this`txns, envs.Values
    {
      && (forall e :: e in envs ==> envs[e].id == e)
      && (forall e, h :: e in envs && h in envs[e].liveTxns ==> KnownTxn(h))
    }

    ghost predicate TxnsValid()
      reads this`envs, this`txns, txns.Values
    {
      && (forall t :: t in txns ==> txns[t].id == t)
      && (forall t :: t in txns && txns[t].owner != null ==> KnownEnv(txns[t].owner))
    }

    /** Every pointer in the graph leads to a handle that has not been deleted. */
    ghost predicate Valid()
      reads this, envs.Values, txns.Values
    {
      EnvsValid() && TxnsValid() && (forall h :: h in openEnvs ==> KnownEnv(h))
    }

    ghost function EnvViews(): map<nat, H.EnvHandle>
      reads this`envs, envs.Values
    {
      map e | e in envs :: envs[e].View()
    }

    ghost function TxnViews(): map<nat, H.TxnHandle>
      reads this`txns, txns.Values
    {
      map t | t in txns :: txns[t].View()
    }

    ghost function View(): H.Proc
      reads this, envs.Values, txns.Values
    {
      H.Proc(pid, past, EnvViews(), TxnViews(), EnvIds(openEnvs), abandoned, ledger, unused)
    }

    /** Changing one environment handle changes one entry of the view. */
    twostate lemma EnvChanged(h: EnvHandle)
      requires old(Valid()) && old(KnownEnv(h)) && unchanged(this)
      requires forall e :: e in envs && envs[e] != h ==> unchanged(envs[e])
      requires forall t :: t in txns ==> unchanged(txns[t])
      requires forall t :: t in h.liveTxns ==> KnownTxn(t)
      ensures Valid() && View() == H.SetEnv(old(View()), h.id, h.View())
    {
      assert EnvViews() == old(EnvViews())[h.id := h.View()];
      assert TxnViews() == old(TxnViews());
    }

    twostate lemma TxnChanged(h: TxnHandle)
      requires old(Valid()) && old(KnownTxn(h)) && unchanged(this)
      requires forall t :: t in txns && txns[t] != h ==> unchanged(txns[t])
      requires forall e :: e in envs ==> unchanged(envs[e])
      requires h.owner != null ==> KnownEnv(h.owner)
      ensures Valid() && View() == H.SetTxn(old(View()), h.id, h.View())
    {
      assert TxnViews() == old(TxnViews())[h.id := h.View()];
      assert EnvViews() == old(EnvViews());
    }

    constructor (world: World, pid: nat)
      ensures Valid() && View() == H.Start(pid) && this.world == world
      ensures envs == map[] && txns == map[]
    {
      this.world, this.pid, past := world, pid, {};
      envs, txns, openEnvs, abandoned := map[], map[], [], [];
      ledger, unused := NO_HANDLES, 0;
    }

    // -----------------------------------------------------------------------
    // Below the panic boundary
    // -----------------------------------------------------------------------

    method Guard(c: Call) returns (o: Outcome)
      requires Valid()
      modifies this`ledger
      ensures Valid()
      ensures View() == H.Guard(world, old(View()), c).0 && o == H.Guard(world, old(View()), c).1
    {
      o := Answer(world, ledger, c);
      ledger := Record(ledger, pid, c, o);
    }

    method PoisonEnv(h: EnvHandle)
      requires Valid() && KnownEnv(h)
      modifies h`poisoned
      ensures Valid() && View() == H.PoisonEnv(old(View()), h.id)
    {
      h.poisoned := true;
      EnvChanged(h);
    }

    method GuardEnv(h: EnvHandle, c: Call) returns (o: Outcome)
      requires Valid() && KnownEnv(h)
      modifies this`ledger, h`poisoned
      ensures Valid()
      ensures View() == H.GuardEnv(world, old(View()), h.id, c).0
      ensures o == H.GuardEnv(world, old(View()), h.id, c).1
    {
      o := Guard(c);
      if o.Panicked? {
        PoisonEnv(h);
      }
    }

    /** poison_txn: the environment goes with the transaction. */
    method PoisonTxn(h: TxnHandle)
      requires Valid() && KnownTxn(h)
      modifies h`poisoned, (if h.owner == null then {} else {h.owner})`poisoned
      ensures Valid() && View() == H.PoisonTxn(old(View()), h.id)
    {
      h.poisoned := true;
      TxnChanged(h);
      if h.owner != null {
        PoisonEnv(h.owner);
      }
    }

    method GuardTxn(h: TxnHandle, c: Call) returns (o: Outcome)
      requires Valid() && KnownTxn(h)
      modifies this`ledger, h`poisoned, (if h.owner == null then {} else {h.owner})`poisoned
      ensures Valid()
      ensures View() == H.GuardTxn(world, old(View()), h.id, c).0
      ensures o == H.GuardTxn(world, old(View()), h.id, c).1
    {
      o := Guard(c);
      if o.Panicked? {
        PoisonTxn(h);
      }
    }

    // -----------------------------------------------------------------------
    // Registries and bookkeeping
    // -----------------------------------------------------------------------

    method FindOpenEnv(key: string) returns (found: EnvHandle?)
      requires Valid() && H.NoDangling(View())
      ensures found == null <==> H.FindOpenEnv(View(), key).None?
      ensures found != null ==> found in openEnvs && found.key == key && found.pid == pid
    {
      found := null;
      for i := 0 to |openEnvs|
        invariant forall k :: 0 <= k < i ==> !(openEnvs[k].key == key && openEnvs[k].pid == pid)
      {
        if openEnvs[i].key == key && openEnvs[i].pid == pid {
          found := openEnvs[i];
          assert KnownEnv(found);
          assert EnvIds(openEnvs)[i] == found.id && View().envs[found.id] == found.View();
          return;
        }
      }
      forall e | e in EnvIds(openEnvs)
        ensures !(View().envs[e].key == key && View().envs[e].pid == pid)
      {
        var k :| 0 <= k < |openEnvs| && EnvIds(openEnvs)[k] == e;
        assert KnownEnv(openEnvs[k]);
        assert View().envs[e] == openEnvs[k].View();
      }
    }

    method Abandon(native: Option<H.Pointer>)
      requires Valid()
      modifies this`abandoned
      ensures Valid()
      ensures View() == old(View()).(abandoned := H.Abandon(old(View()).abandoned, native))
    {
      if native.Some? {
        abandoned := abandoned + [native.value];
      }
    }

    method AbandonEnv(h: EnvHandle)
      requires Valid() && KnownEnv(h)
      modifies this`abandoned
      ensures Valid()
      ensures View() == old(View()).(abandoned :=
                          H.AbandonEnv(old(abandoned), old(View()).envs[h.id]))
    {
      EnvOfView(h);
      Abandon(if h.env.Some? then Some(H.EnvPointer(h.env.value)) else None);
      Abandon(H.RootOf(h.heapRoots.0));
      Abandon(H.RootOf(h.heapRoots.1));
    }

    method AbandonTxn(txn: Option<nat>)
      requires Valid()
      modifies this`abandoned
      ensures Valid()
      ensures View() == old(View()).(abandoned := H.AbandonTxn(old(abandoned), txn))
    {
      Abandon(if txn.Some? then Some(H.TxnPointer(txn.value)) else None);
    }

    method SetHeapRoots(h: EnvHandle, roots: H.Roots)
      requires Valid() && KnownEnv(h)
      modifies h`heapRoots
      ensures Valid()
      ensures View() == H.SetEnv(old(View()), h.id, old(View()).envs[h.id].(roots := roots))
    {
      h.heapRoots := roots;
      EnvChanged(h);
    }

    method RecordHeapRoots(h: EnvHandle)
      requires Valid() && KnownEnv(h)
      modifies this`ledger, h`heapRoots
      ensures Valid()
      ensures View() == H.RecordHeapRoots(world, old(View()), h.id)
    {
      if h.env.Some? && !h.poisoned && h.pid == pid {
        SetHeapRoots(h, world.roots(ledger.trace, h.env.value));
        Peek(h.env.value);
      }
    }

    method Peek(n: nat)
      requires Valid()
      modifies this`ledger
      ensures Valid()
      ensures View() == old(View()).(ledger := ReadRoots(old(ledger), pid, n))
    {
      ledger := ReadRoots(ledger, pid, n);
    }

    method UnregisterTxn(h: TxnHandle)
      requires Valid() && KnownTxn(h)
      modifies (if h.owner == null then {} else {h.owner})`liveTxns
      ensures Valid()
      ensures View() == H.UnregisterTxn(old(View()), h.id)
    {
      if h.owner == null {
        return;
      }
      assert txns[h.id] == h && envs[h.owner.id] == h.owner;
      forall y | y in envs[h.owner.id].liveTxns ensures KnownTxn(y) {}
      EraseTxnIds(h.owner.liveTxns, h);
      h.owner.liveTxns := EraseTxn(h.owner.liveTxns, h);
      EnvChanged(h.owner);
    }

    /** The three fields every path that ends a transaction sets together. */
    method SetEnded(h: TxnHandle, state: H.TxnState)
      requires Valid() && KnownTxn(h)
      modifies h`txn, h`state, h`owner
      ensures Valid() && h.owner == null
      ensures View() == H.SetTxn(old(View()), h.id,
                                 old(View()).txns[h.id].(txn := None, owner := None, state := state))
    {
      h.txn, h.state, h.owner := None, state, null;
      TxnChanged(h);
    }

    method MarkFinished(h: TxnHandle, state: H.TxnState)
      requires Valid() && KnownTxn(h)
      modifies this`ledger, h`txn, h`state, h`owner,
               (if h.owner == null then {} else {h.owner})`heapRoots,
               (if h.owner == null then {} else {h.owner})`liveTxns
      ensures Valid()
      ensures View() == H.MarkFinished(world, old(View()), h.id, state)
    {
      if h.write && h.owner != null {
        RecordHeapRoots(h.owner);
      }
      UnregisterTxn(h);
      SetEnded(h, state);
    }

    // -----------------------------------------------------------------------
    // Letting go of an environment
    // -----------------------------------------------------------------------

    method UnregisterEnv(h: EnvHandle)
      requires Valid() && KnownEnv(h)
      modifies this`openEnvs
      ensures Valid() && forall x :: x in openEnvs ==> x in old(openEnvs)
      ensures View() == old(View()).(openEnvs := H.Without(old(View()).openEnvs, h.id))
    {
      EraseEnvIds(openEnvs, h);
      openEnvs := EraseEnv(openEnvs, h);
    }

    method DropEnv(h: EnvHandle)
      requires Valid() && KnownEnv(h)
      modifies h`env
      ensures Valid() && h.env == None
      ensures View() == H.SetEnv(old(View()), h.id, old(View()).envs[h.id].(env := None))
    {
      h.env := None;
      EnvChanged(h);
    }

    method GiveUpEnv(h: EnvHandle)
      requires Valid() && KnownEnv(h)
      modifies this`abandoned, h`env
      ensures Valid() && h.env == None
      ensures View() == H.SetEnv(old(View()), h.id, old(View()).envs[h.id].(env := None))
                        .(abandoned := H.AbandonEnv(old(abandoned), old(View()).envs[h.id]))
    {
      AbandonEnv(h);
      DropEnv(h);
    }

    /** close_handle. */
    method CloseHandle(h: EnvHandle, propagate: bool) returns (reply: H.Reply)
      requires Valid() && KnownEnv(h)
      modifies this`openEnvs, this`abandoned, this`ledger, h`env, h`poisoned
      ensures Valid() && h.env == None && forall x :: x in openEnvs ==> x in old(openEnvs)
      ensures View() == H.CloseHandle(world, old(View()), h.id, propagate).proc
      ensures reply == H.CloseHandle(world, old(View()), h.id, propagate).reply
    {
      if h.env.None? {
        return H.Done;
      }
      UnregisterEnv(h);
      if h.pid != pid {
        GiveUpEnv(h);
        return if propagate then H.Refused(H.ForeignEnv) else H.Done;
      }
      if h.poisoned {
        GiveUpEnv(h);
        return H.Done;
      }
      var o := GuardEnv(h, CloseEnv(h.env.value));
      DropEnv(h);
      reply := if !propagate then H.Done
               else if o.Panicked? then H.Panic
               else if o.rc != SUCCESS then H.Failed(o.rc)
               else H.Done;
    }

    // -----------------------------------------------------------------------
    // Letting go of transactions
    // -----------------------------------------------------------------------

    method EndOrAbandon(h: TxnHandle, mayCall: bool)
      requires Valid() && KnownTxn(h)
      modifies this`ledger, this`abandoned, h`poisoned,
               (if h.owner == null then {} else {h.owner})`poisoned
      ensures Valid()
      ensures View() == H.EndOrAbandon(world, old(View()), h.id, mayCall)
    {
      var ended := false;
      if mayCall && h.txn.Some? {
        var o := GuardTxn(h, AbortTxn(h.txn.value));
        ended := o.Returned?;
      }
      if !ended {
        AbandonTxn(h.txn);
      }
    }

    /** The body of the loop in detach_txns. */
    method DetachOne(h: TxnHandle, usable: bool)
      requires Valid() && KnownTxn(h)
      modifies this`ledger, this`abandoned, h`txn, h`state, h`owner, h`poisoned,
               (if h.owner == null then {} else {h.owner})`poisoned
      ensures Valid()
      ensures View() == H.DetachOne(world, old(View()), h.id, usable)
    {
      EndOrAbandon(h, usable && !h.poisoned);
      SetEnded(h, H.Aborted);
    }

    method ClearLiveTxns(h: EnvHandle)
      requires Valid() && KnownEnv(h)
      modifies h`liveTxns
      ensures Valid() && h.liveTxns == []
      ensures View() == H.SetEnv(old(View()), h.id, old(View()).envs[h.id].(live := []))
    {
      h.liveTxns := [];
      assert h.View().live == [];
      EnvChanged(h);
    }

    /** The loop of detach_txns. */
    method DetachEach(live: seq<TxnHandle>, usable: bool)
      requires Valid() && forall t :: t in live ==> KnownTxn(t)
      modifies this`ledger, this`abandoned, envs.Values, txns.Values
      ensures Valid()
      ensures forall t :: t in TxnIds(live) ==> t in old(View()).txns
      ensures View() == H.DetachEach(world, old(View()), TxnIds(live), usable)
    {
      ghost var ids := TxnIds(live);
      forall t | t in ids ensures t in txns {
        var k :| 0 <= k < |live| && ids[k] == t;
        assert KnownTxn(live[k]);
      }
      ghost var goal := H.DetachEach(world, View(), ids, usable);
      assert ids[0..] == ids;
      for i := 0 to |live|
        invariant Valid() && forall t :: t in ids ==> t in View().txns
        invariant H.DetachEach(world, View(), ids[i..], usable) == goal
      {
        assert KnownTxn(live[i]) && txns[live[i].id] == live[i];
        DetachEachStep(world, View(), ids, i, usable);
        DetachOne(live[i], usable);
      }
    }

    method DetachTxns(h: EnvHandle)
      requires Valid() && KnownEnv(h) && H.NoDangling(View())
      modifies this`ledger, this`abandoned, envs.Values, txns.Values
      ensures Valid() && h.liveTxns == []
      ensures View() == H.DetachTxns(world, old(View()), h.id)
    {
      forall t | t in envs[h.id].liveTxns ensures KnownTxn(t) {}
      assert View().envs[h.id] == h.View();
      DetachEach(h.liveTxns, h.env.Some? && !h.poisoned && h.pid == pid);
      assert View().envs[h.id] == h.View();
      ClearLiveTxns(h);
    }

    // -----------------------------------------------------------------------
    // Allocation and deletion
    // -----------------------------------------------------------------------

    method NewEnv(key: string) returns (h: EnvHandle)
      requires Valid() && unused !in envs
      modifies this`envs, this`unused
      ensures Valid() && KnownEnv(h) && fresh(h) && envs == old(envs)[old(unused) := h]
      ensures h.id == old(unused) && h.env == None && h.liveTxns == [] && !h.poisoned
      ensures h.pid == pid && h.key == key
      ensures h !in openEnvs && forall t :: t in txns ==> txns[t].owner != h
      ensures View() == H.SetEnv(old(View()), old(unused),
                                 H.EnvHandle(None, false, pid, key, [], H.NO_ROOTS))
                        .(unused := old(unused) + 2)
    {
      h := new EnvHandle(unused, pid, key);
      envs := envs[unused := h];
      unused := unused + 2;
      assert EnvViews() == old(EnvViews())[h.id := h.View()];
      assert TxnViews() == old(TxnViews());
    }

    method NewTxn(owner: EnvHandle, write: bool) returns (h: TxnHandle)
      requires Valid() && KnownEnv(owner) && unused !in txns
      modifies this`txns, this`unused
      ensures Valid() && KnownTxn(h) && fresh(h) && txns == old(txns)[old(unused) := h]
      ensures h.id == old(unused) && h.owner == owner
      ensures forall e :: e in envs ==> h !in envs[e].liveTxns
      ensures View() == H.AllocateTxn(old(View()), owner.id, write)
    {
      h := new TxnHandle(unused, pid, write, owner);
      txns := txns[unused := h];
      unused := unused + 2;
      forall e, t | e in envs && t in envs[e].liveTxns ensures KnownTxn(t) {
        assert t in old(envs[e].liveTxns) && old(KnownTxn(t));
      }
      assert TxnViews() == old(TxnViews())[h.id := h.View()];
    }

    /** No pointer to the handle is left behind. */
    method DeleteEnv(h: EnvHandle)
      requires Valid() && KnownEnv(h) && h !in openEnvs
      requires forall t :: t in txns ==> txns[t].owner != h
      modifies this`envs
      ensures Valid() && envs == old(envs) - {h.id}
      ensures View() == H.DeleteEnv(old(View()), h.id)
    {
      envs := envs - {h.id};
      assert EnvViews() == old(EnvViews()) - {h.id};
    }

    method DeleteTxn(h: TxnHandle)
      requires Valid() && KnownTxn(h)
      requires forall e :: e in envs ==> h !in envs[e].liveTxns
      modifies this`txns
      ensures Valid() && txns == old(txns) - {h.id}
      ensures View() == H.DeleteTxn(old(View()), h.id)
    {
      txns := txns - {h.id};
      forall e, t | e in envs && t in envs[e].liveTxns ensures KnownTxn(t) {
        assert t in old(envs[e].liveTxns) && old(KnownTxn(t));
      }
      assert TxnViews() == old(TxnViews()) - {h.id};
    }

    // -----------------------------------------------------------------------
    // Entry points and finalizers
    // -----------------------------------------------------------------------

    ghost predicate Ready()
      reads this, envs.Values, txns.Values
    {
      Valid() && Invariant.Inv(View()) && H.NoDangling(View()) && OwningThread(world)
    }

    lemma EnvOfView(h: EnvHandle)
      requires Valid() && KnownEnv(h)
      ensures h.id in View().envs && View().envs[h.id] == h.View()
    {}

    lemma TxnOfView(h: TxnHandle)
      requires Valid() && KnownTxn(h)
      ensures h.id in View().txns && View().txns[h.id] == h.View()
      ensures h.owner != null ==> KnownEnv(h.owner) && H.Owner(View(), h.View()) == Some(h.owner.View())
      ensures h.owner == null ==> H.Owner(View(), h.View()) == None
    {}

    /** mdbx_env_close_. */
    method EnvClose(e: nat) returns (reply: H.Reply)
      requires Valid() && H.NoDangling(View())
      modifies this`openEnvs, this`ledger, this`abandoned, envs.Values, txns.Values
      ensures Valid()
      ensures View() == H.CloseStep(world, old(View()), e).proc
      ensures reply == H.CloseStep(world, old(View()), e).reply
    {
      if e !in envs {
        return H.Done;
      }
      var h := envs[e];
      EnvOfView(h);
      if h.poisoned {
        DetachTxns(h);
      }
      EnvOfView(h);
      if h.liveTxns != [] {
        return H.Refused(H.TxnsStillOpen);
      }
      reply := CloseHandle(h, true);
    }

    /** finish_txn, once txn_from_sexp has let the transaction through. */
    method FinishOn(h: TxnHandle, commit: bool) returns (reply: H.Reply)
      requires Valid() && KnownTxn(h) && h.txn.Some?
      modifies this`ledger, h, (if h.owner == null then {} else {h.owner})
      ensures Valid()
      ensures View() == H.FinishOn(world, old(View()), h.id, old(h.txn.value), commit).proc
      ensures reply == H.FinishOn(world, old(View()), h.id, old(h.txn.value), commit).reply
    {
      var o := GuardTxn(h, if commit then CommitTxn(h.txn.value) else AbortTxn(h.txn.value));
      if o.Panicked? {
        return H.Panic;
      }
      if o.rc == THREAD_MISMATCH {
        return H.Failed(o.rc);
      }
      MarkFinished(h, if commit && o.rc == SUCCESS then H.Committed else H.Aborted);
      reply := if o.rc == RESULT_TRUE then H.RolledBack
               else if o.rc != SUCCESS then H.Failed(o.rc)
               else H.Done;
    }

    method FinishTxn(t: nat, commit: bool) returns (reply: H.Reply)
      requires Valid()
      modifies this`ledger, envs.Values, txns.Values
      ensures Valid()
      ensures View() == H.FinishStep(world, old(View()), t, commit).proc
      ensures reply == H.FinishStep(world, old(View()), t, commit).reply
    {
      var refusal := TxnRefusal(t);
      if refusal.Some? {
        return H.Refused(refusal.value);
      }
      TxnOfView(txns[t]);
      reply := FinishOn(txns[t], commit);
    }

    /** env_from_sexp, as the reason it gives for refusing. */
    method EnvRefusal(e: nat) returns (r: Option<H.Refusal>)
      requires Valid()
      ensures r == H.EnvRefusal(View(), e)
      ensures r.None? ==> e in envs
    {
      if e in envs {
        EnvOfView(envs[e]);
      }
      if e in envs && envs[e].pid != pid {
        return Some(H.ForeignEnv);
      }
      if e !in envs || envs[e].env.None? {
        return Some(H.ClosedEnv);
      }
      if envs[e].poisoned {
        return Some(H.PoisonedEnv);
      }
      return None;
    }

    /** txn_from_sexp. */
    method TxnRefusal(t: nat) returns (r: Option<H.Refusal>)
      requires Valid()
      ensures r == H.TxnRefusal(View(), t)
      ensures r.None? ==> t in txns
    {
      if t !in txns {
        return Some(H.NoTxn);
      }
      var h := txns[t];
      TxnOfView(h);
      if h.pid != pid {
        return Some(H.ForeignTxn);
      }
      if h.poisoned {
        return Some(H.PoisonedTxn);
      }
      if h.txn.None? {
        return Some(H.Finished(h.state));
      }
      if h.owner == null || h.owner.env.None? {
        return Some(H.OwnerClosed);
      }
      if h.owner.poisoned {
        return Some(H.OwnerPoisoned);
      }
      return None;
    }

    /** mdbx_txn_abort_. */
    method TxnAbort(t: nat) returns (reply: H.Reply)
      requires Valid()
      modifies this`ledger, this`abandoned, envs.Values, txns.Values
      ensures Valid()
      ensures View() == H.AbortStep(world, old(View()), t).proc
      ensures reply == H.AbortStep(world, old(View()), t).reply
    {
      if t !in txns || txns[t].txn.None? {
        return H.Done;
      }
      var h := txns[t];
      TxnOfView(h);
      if h.pid == pid && (h.poisoned || h.owner == null || h.owner.env.None? || h.owner.poisoned) {
        AbandonTxn(h.txn);
        MarkFinished(h, H.Aborted);
        return H.Done;
      }
      reply := FinishTxn(t, false);
    }

    /** mdbx_txn_state_, given whether libmdbx has marked a running transaction erroneous. */
    method TxnState(t: nat, erroneous: bool) returns (report: H.Report)
      requires Valid()
      ensures report == H.TxnReport(View(), t, erroneous)
    {
      if t !in txns {
        return H.InvalidHandle;
      }
      var h := txns[t];
      TxnOfView(h);
      if h.pid != pid {
        return H.InvalidHandle;
      }
      if h.state.Active? && (h.poisoned || (h.owner != null && h.owner.poisoned)) {
        return H.PoisonedNow;
      }
      match h.state
      case Active => report := if h.txn.Some? && erroneous then H.FailedNow else H.ActiveNow;
      case Committed => report := H.CommittedNow;
      case Aborted => report := H.AbortedNow;
    }

    method EnvCallOn(h: EnvHandle, c: Call) returns (reply: H.Reply)
      requires Valid() && KnownEnv(h)
      modifies this`ledger, h`poisoned
      ensures Valid()
      ensures View() == H.EnvCallOn(world, old(View()), h.id, c).proc
      ensures reply == H.EnvCallOn(world, old(View()), h.id, c).reply
    {
      var o := GuardEnv(h, c);
      reply := H.ReplyTo(o);
    }

    /** The operations that reach libmdbx through env_from_sexp. */
    method EnvOp(e: nat, inTxn: bool) returns (reply: H.Reply)
      requires Valid()
      modifies this`ledger, envs.Values
      ensures Valid()
      ensures View() == H.EnvOpStep(world, old(View()), e, inTxn).proc
      ensures reply == H.EnvOpStep(world, old(View()), e, inTxn).reply
    {
      var refusal := EnvRefusal(e);
      if refusal.Some? {
        return H.Refused(refusal.value);
      }
      var h := envs[e];
      EnvOfView(h);
      var under: Option<nat> := None;
      if inTxn {
        under := CurrentTxn(h);
      }
      reply := EnvCallOn(h, EnvCall(h.env.value, under));
    }

    /** current_txn: the transaction this environment already has, for stat and info. */
    method CurrentTxn(h: EnvHandle) returns (native: Option<nat>)
      requires Valid() && KnownEnv(h)
      ensures native == H.CurrentTxn(View(), h.View().live)
    {
      forall t | t in envs[h.id].liveTxns ensures KnownTxn(t) {}
      ghost var ids := TxnIds(h.liveTxns);
      assert ids[0..] == ids;
      for i := 0 to |h.liveTxns|
        invariant H.CurrentTxn(View(), ids) == H.CurrentTxn(View(), ids[i..])
      {
        assert h.liveTxns[i] in h.liveTxns;
        TxnOfView(h.liveTxns[i]);
        assert ids[i..][0] == h.liveTxns[i].id && ids[i..][1..] == ids[i + 1..];
        if h.liveTxns[i].txn.Some? {
          return h.liveTxns[i].txn;
        }
      }
      return None;
    }

    /** mdbx_txn_stat_ and mdbx_txn_info_ of the main database: only the environment is poisoned. */
    method TxnStat(t: nat) returns (reply: H.Reply)
      requires Valid()
      modifies this`ledger, envs.Values
      ensures Valid()
      ensures View() == H.TxnStatStep(world, old(View()), t).proc
      ensures reply == H.TxnStatStep(world, old(View()), t).reply
    {
      var refusal := TxnRefusal(t);
      if refusal.Some? {
        return H.Refused(refusal.value);
      }
      var h := txns[t];
      TxnOfView(h);
      EnvOfView(h.owner);
      reply := EnvCallOn(h.owner, EnvCall(h.owner.env.value, h.txn));
    }

    /** The operations that reach libmdbx through txn_from_sexp. */
    method TxnOp(t: nat, next: Store) returns (reply: H.Reply)
      requires Valid()
      modifies this`ledger, envs.Values, txns.Values
      ensures Valid()
      ensures View() == H.TxnOpStep(world, old(View()), t, next).proc
      ensures reply == H.TxnOpStep(world, old(View()), t, next).reply
    {
      var refusal := TxnRefusal(t);
      if refusal.Some? {
        return H.Refused(refusal.value);
      }
      var h := txns[t];
      TxnOfView(h);
      var o := GuardTxn(h, TxnCall(h.txn.value, next));
      reply := H.ReplyTo(o);
    }

    /** This memory, in a child that fork() has just made of the process. */
    method Fork(child: nat)
      requires Valid()
      modifies this`pid, this`past
      ensures Valid()
      ensures View() == H.ForkStep(old(View()), child)
    {
      if child != pid && child !in past {
        past := past + {pid};
        pid := child;
      }
    }

    /** mdbx_env_open_. `found` is what the environment turns out to hold. */
    method EnvOpen(key: string, found: Store) returns (reply: H.Reply)
      requires Valid() && H.NoDangling(View()) && unused !in envs
      modifies this`envs, this`unused, this`openEnvs, this`ledger, this`abandoned
      ensures Valid() && fresh(envs.Values - old(envs.Values))
      ensures View() == H.OpenStep(world, old(View()), key, found).proc
      ensures reply == H.OpenStep(world, old(View()), key, found).reply
    {
      var incumbent := FindOpenEnv(key);
      if incumbent != null {
        return H.Refused(H.AlreadyOpen);
      }
      reply := OpenNew(key, found);
    }

    method OpenNew(key: string, found: Store) returns (reply: H.Reply)
      requires Valid() && unused !in envs
      modifies this`envs, this`unused, this`openEnvs, this`ledger, this`abandoned
      ensures Valid() && fresh(envs.Values - old(envs.Values))
      ensures View() == H.OpenNew(world, old(View()), key, found).proc
      ensures reply == H.OpenNew(world, old(View()), key, found).reply
    {
      var n := unused + 1;
      var h := NewEnv(key);
      ghost var s := View();
      assert H.CreateCall(world, s, h.id, n, found) == H.OpenNew(world, old(View()), key, found);
      reply := CreateCall(h, n, found);
    }

    method CreateCall(h: EnvHandle, n: nat, found: Store) returns (reply: H.Reply)
      requires Valid() && KnownEnv(h) && h !in openEnvs
      requires forall t :: t in txns ==> txns[t].owner != h
      modifies this`envs, this`openEnvs, this`ledger, this`abandoned, h
      ensures Valid() && (envs == old(envs) || envs == old(envs) - {h.id})
      ensures View() == H.CreateCall(world, old(View()), h.id, n, found).proc
      ensures reply == H.CreateCall(world, old(View()), h.id, n, found).reply
    {
      var o := GuardEnv(h, CreateEnv(n));
      if o.Panicked? {
        DeleteEnv(h);
        return H.Panic;
      }
      if o.rc != SUCCESS {
        DeleteEnv(h);
        return H.Failed(o.rc);
      }
      SetCreated(h, n);
      reply := OpenCreated(h, n, found);
    }

    method SetCreated(h: EnvHandle, n: nat)
      requires Valid() && KnownEnv(h)
      modifies h`env
      ensures Valid() && h.env == Some(n)
      ensures View() == H.SetEnv(old(View()), h.id, old(View()).envs[h.id].(env := Some(n)))
    {
      h.env := Some(n);
      EnvChanged(h);
    }

    method OpenCreated(h: EnvHandle, n: nat, found: Store) returns (reply: H.Reply)
      requires Valid() && KnownEnv(h) && h !in openEnvs
      requires forall t :: t in txns ==> txns[t].owner != h
      modifies this`envs, this`openEnvs, this`ledger, this`abandoned, h
      ensures Valid() && (envs == old(envs) || envs == old(envs) - {h.id})
      ensures View() == H.OpenCreated(world, old(View()), h.id, n, found).proc
      ensures reply == H.OpenCreated(world, old(View()), h.id, n, found).reply
    {
      var o := GuardEnv(h, OpenEnv(n, found));
      EnvOfView(h);
      if o.Panicked? {
        AbandonEnv(h);
        DeleteEnv(h);
        return H.Panic;
      }
      if o.rc != SUCCESS {
        var ignored := CloseHandle(h, false);
        DeleteEnv(h);
        return H.Failed(o.rc);
      }
      RecordHeapRoots(h);
      RegisterEnv(h);
      return H.Opened(h.id);
    }

    method RegisterEnv(h: EnvHandle)
      requires Valid() && KnownEnv(h)
      modifies this`openEnvs
      ensures Valid()
      ensures View() == old(View()).(openEnvs := old(View()).openEnvs + [h.id])
    {
      openEnvs := openEnvs + [h];
      assert EnvIds(openEnvs) == EnvIds(old(openEnvs)) + [h.id];
    }

    /** mdbx_txn_begin_. */
    method TxnBegin(e: nat, write: bool) returns (reply: H.Reply)
      requires Valid() && unused !in txns
      modifies this`txns, this`unused, this`ledger, envs.Values
      ensures Valid() && forall t :: t in txns ==> (t in old(txns) && txns[t] == old(txns)[t]) || fresh(txns[t])
      ensures View() == H.BeginStep(world, old(View()), e, write).proc
      ensures reply == H.BeginStep(world, old(View()), e, write).reply
    {
      var refusal := EnvRefusal(e);
      if refusal.Some? {
        return H.Refused(refusal.value);
      }
      var owner := envs[e];
      EnvOfView(owner);
      if owner.liveTxns != [] {
        return H.Refused(H.TxnOpen);
      }
      reply := BeginOn(owner, owner.env.value, write);
    }

    method BeginOn(owner: EnvHandle, env: nat, write: bool) returns (reply: H.Reply)
      requires Valid() && KnownEnv(owner) && unused !in txns
      modifies this`txns, this`unused, this`ledger, owner
      ensures Valid() && forall t :: t in txns ==> (t in old(txns) && txns[t] == old(txns)[t]) || fresh(txns[t])
      ensures View() == H.BeginOn(world, old(View()), owner.id, env, write).proc
      ensures reply == H.BeginOn(world, old(View()), owner.id, env, write).reply
    {
      var n := unused + 1;
      ghost var s := View();
      var h := NewTxn(owner, write);
      assert H.BeginOn(world, s, owner.id, env, write)
          == H.BeginCall(world, View(), owner.id, h.id, env, n);
      reply := BeginCall(h, owner, env, n);
    }

    method BeginCall(h: TxnHandle, owner: EnvHandle, env: nat, n: nat) returns (reply: H.Reply)
      requires Valid() && KnownTxn(h) && KnownEnv(owner)
      requires forall e :: e in envs ==> h !in envs[e].liveTxns
      modifies this`txns, this`ledger, owner, h`txn
      ensures Valid() && (txns == old(txns) || txns == old(txns) - {h.id})
      ensures View() == H.BeginCall(world, old(View()), owner.id, h.id, env, n).proc
      ensures reply == H.BeginCall(world, old(View()), owner.id, h.id, env, n).reply
    {
      TxnOfView(h);
      var o := GuardEnv(owner, BeginTxn(env, n, h.write));
      if o.Panicked? {
        DeleteTxn(h);
        return H.Panic;
      }
      if o.rc != SUCCESS {
        DeleteTxn(h);
        return H.Failed(o.rc);
      }
      Keep(h, owner, n);
      return H.Begun(h.id);
    }

    method Keep(h: TxnHandle, owner: EnvHandle, n: nat)
      requires Valid() && KnownTxn(h) && KnownEnv(owner)
      modifies owner`liveTxns, h`txn
      ensures Valid()
      ensures var s := old(View());
              View() == H.RegisterTxn(H.SetTxn(s, h.id, s.txns[h.id].(txn := Some(n))), h.id, owner.id)
    {
      HoldTxn(h, n);
      RegisterTxn(h, owner);
    }

    method HoldTxn(h: TxnHandle, n: nat)
      requires Valid() && KnownTxn(h)
      modifies h`txn
      ensures Valid()
      ensures View() == H.SetTxn(old(View()), h.id, old(View()).txns[h.id].(txn := Some(n)))
    {
      h.txn := Some(n);
      TxnChanged(h);
    }

    method RegisterTxn(h: TxnHandle, owner: EnvHandle)
      requires Valid() && KnownTxn(h) && KnownEnv(owner)
      modifies owner`liveTxns
      ensures Valid()
      ensures View() == H.RegisterTxn(old(View()), h.id, owner.id)
    {
      owner.liveTxns := owner.liveTxns + [h];
      assert TxnIds(owner.liveTxns) == TxnIds(old(owner.liveTxns)) + [h.id];
      EnvChanged(owner);
    }

    method FinalizeEnv(e: nat)
      requires Valid() && H.NoDangling(View())
      requires Invariant.Inv(View()) && OwningThread(world)
      modifies this`envs, this`openEnvs, this`ledger, this`abandoned, envs.Values, txns.Values
      ensures Valid() && envs == old(envs) - {e}
      ensures View() == H.FinalizeEnvStep(world, old(View()), e)
    {
      if e !in envs {
        return;
      }
      Preservation.ClosedUnreferenced(world, View(), e);
      EnvOfView(envs[e]);
      FinalizeOpen(envs[e]);
    }

    method FinalizeOpen(h: EnvHandle)
      requires Valid() && KnownEnv(h) && H.NoDangling(View())
      requires var r := H.CloseHandle(world, H.DetachTxns(world, View(), h.id), h.id, false).proc;
               h.id !in r.openEnvs && forall t :: t in r.txns ==> r.txns[t].owner != Some(h.id)
      modifies this`envs, this`openEnvs, this`ledger, this`abandoned, envs.Values, txns.Values
      ensures Valid() && envs == old(envs) - {h.id}
      ensures View() == H.DeleteEnv(
        H.CloseHandle(world, H.DetachTxns(world, old(View()), h.id), h.id, false).proc, h.id)
    {
      DetachTxns(h);
      var ignored := CloseHandle(h, false);
      DeleteUnreferencedEnv(h);
    }

    method DeleteUnreferencedEnv(h: EnvHandle)
      requires Valid() && KnownEnv(h) && h.id !in View().openEnvs
      requires forall t :: t in View().txns ==> View().txns[t].owner != Some(h.id)
      modifies this`envs
      ensures Valid() && envs == old(envs) - {h.id}
      ensures View() == H.DeleteEnv(old(View()), h.id)
    {
      forall i | 0 <= i < |openEnvs| ensures openEnvs[i] != h {
        assert EnvIds(openEnvs)[i] == openEnvs[i].id;
      }
      forall t | t in txns ensures txns[t].owner != h {
        assert View().txns[t] == txns[t].View();
      }
      DeleteEnv(h);
    }

    method DeleteUnreferencedTxn(h: TxnHandle)
      requires Valid() && KnownTxn(h)
      requires forall e :: e in View().envs ==> h.id !in View().envs[e].live
      modifies this`txns
      ensures Valid() && txns == old(txns) - {h.id}
      ensures View() == H.DeleteTxn(old(View()), h.id)
    {
      forall e | e in envs ensures h !in envs[e].liveTxns {
        var live := envs[e].liveTxns;
        assert View().envs[e] == envs[e].View();
        forall i | 0 <= i < |live| ensures live[i] != h {
          assert TxnIds(live)[i] == live[i].id;
        }
      }
      DeleteTxn(h);
    }

    method FinalizeTxn(t: nat)
      requires Valid() && H.NoDangling(View())
      requires Invariant.Inv(View()) && OwningThread(world)
      modifies this`txns, this`ledger, this`abandoned, envs.Values, txns.Values
      ensures Valid() && txns == old(txns) - {t}
      ensures View() == H.FinalizeTxnStep(world, old(View()), t)
    {
      if t !in txns {
        return;
      }
      var h := txns[t];
      TxnOfView(h);
      Preservation.EndedUnreferenced(world, View(), t);
      Preservation.FinalizeTxnForm(world, View(), t);
      if h.txn.Some? {
        EnvOfView(h.owner);
        FinalizeRunning(h, !h.poisoned && h.owner.env.Some? && !h.owner.poisoned && h.pid == pid);
      } else {
        DeleteUnreferencedTxn(h);
      }
    }

    method FinalizeRunning(h: TxnHandle, mayCall: bool)
      requires Valid() && KnownTxn(h)
      requires var s := H.EndOrAbandon(world, View(), h.id, mayCall);
               var r := H.MarkFinished(world, s, h.id, H.Aborted);
               forall e :: e in r.envs ==> h.id !in r.envs[e].live
      modifies this`txns, this`ledger, this`abandoned, h, (if h.owner == null then {} else {h.owner})
      ensures Valid() && txns == old(txns) - {h.id}
      ensures var s := H.EndOrAbandon(world, old(View()), h.id, mayCall);
              View() == H.DeleteTxn(H.MarkFinished(world, s, h.id, H.Aborted), h.id)
    {
      EndOrAbandon(h, mayCall);
      MarkFinished(h, H.Aborted);
      DeleteUnreferencedTxn(h);
    }

    /** Any step, from a state the package can be in to another. */
    method Perform(step: H.Step) returns (reply: H.Reply)
      requires Ready()
      modifies this, envs.Values, txns.Values
      ensures Ready()
      ensures View() == H.Do(world, old(View()), step).proc
      ensures reply == H.Do(world, old(View()), step).reply
    {
      ghost var s := View();
      Preservation.StepInv(world, s, step);
      Invariant.InvNoDangling(H.Do(world, s, step).proc);
      Preservation.NewNumber(s);
      reply := Dispatch(step);
    }

    method Dispatch(step: H.Step) returns (reply: H.Reply)
      requires Ready() && unused !in envs && unused !in txns
      modifies this, envs.Values, txns.Values
      ensures Valid()
      ensures View() == H.Do(world, old(View()), step).proc
      ensures reply == H.Do(world, old(View()), step).reply
    {
      reply := H.Done;
      match step
      case Open(key, found) => reply := EnvOpen(key, found);
      case Close(e) => reply := EnvClose(e);
      case Begin(e, write) => reply := TxnBegin(e, write);
      case Commit(t) => reply := FinishTxn(t, true);
      case Abort(t) => reply := TxnAbort(t);
      case EnvOp(e, inTxn) => reply := EnvOp(e, inTxn);
      case TxnStat(t) => reply := TxnStat(t);
      case TxnOp(t, next) => reply := TxnOp(t, next);
      case FinalizeEnv(e) => FinalizeEnv(e);
      case FinalizeTxn(t) => FinalizeTxn(t);
      case Fork(child) => Fork(child);
    }

    // -----------------------------------------------------------------------
    // mdbx_with_write() and mdbx_with_read()
    // -----------------------------------------------------------------------

    method Act(t: nat, what: B.What) returns (reply: H.Reply)
      requires Valid() && !what.Throw?
      modifies this`ledger, this`abandoned, envs.Values, txns.Values
      ensures Valid()
      ensures View() == B.Perform(world, old(View()), t, what).proc
      ensures reply == B.Perform(world, old(View()), t, what).reply
    {
      match what
      case Operate(next) => reply := TxnOp(t, next);
      case Look => reply := TxnStat(t);
      case CommitHere => reply := FinishTxn(t, true);
      case AbortHere => reply := TxnAbort(t);
    }

    /** The body of a bracket: its first uncaught failure ends it. */
    method RunBody(t: nat, acts: seq<B.Act>) returns (threw: bool)
      requires Valid()
      modifies this`ledger, this`abandoned, envs.Values, txns.Values
      ensures Valid()
      ensures View() == B.RunBody(world, old(View()), t, acts).proc
      ensures threw == B.RunBody(world, old(View()), t, acts).threw
    {
      assert acts[0..] == acts;
      for i := 0 to |acts|
        invariant Valid()
        invariant B.RunBody(world, View(), t, acts[i..]) == B.RunBody(world, old(View()), t, acts)
      {
        assert acts[i..][0] == acts[i] && acts[i..][1..] == acts[i + 1..];
        if acts[i].what.Throw? {
          return true;
        }
        var reply := Act(t, acts[i].what);
        if reply != H.Done && !acts[i].caught {
          return true;
        }
      }
      return false;
    }

    /** Begin, run the body, commit in a write bracket whose body returned, and abort in on.exit()
        on every way out. */
    method WithTxn(e: nat, write: bool, acts: seq<B.Act>)
      returns (begun: H.Reply, threw: bool, cleanup: H.Reply)
      requires Valid() && unused !in txns
      modifies this`txns, this`unused, this`ledger, this`abandoned, envs.Values, txns.Values
      ensures Valid()
      ensures var x := B.Bracketed(world, old(View()), e, write, acts);
              && View() == x.proc && (begun.Begun? <==> x.Ran?)
              && (x.NotBegun? ==> begun == x.why)
              && (x.Ran? ==> threw == x.threw && cleanup == x.cleanup)
    {
      threw, cleanup := true, H.Done;
      begun := TxnBegin(e, write);
      if !begun.Begun? {
        return;
      }
      threw := RunBody(begun.txn, acts);
      if !threw && write {
        var reply := FinishTxn(begun.txn, true);
        threw := reply != H.Done;
      }
      cleanup := TxnAbort(begun.txn);
    }
  }

  lemma DetachEachStep(w: World, s: H.Proc, ids: seq<nat>, i: nat, usable: bool)
    requires i < |ids| && forall t :: t in ids ==> t in s.txns
    ensures H.DetachEach(w, s, ids[i..], usable)
         == H.DetachEach(w, H.DetachOne(w, s, ids[i], usable), ids[i + 1..], usable)
  {}
}
