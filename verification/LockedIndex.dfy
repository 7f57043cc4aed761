/** The certificate index under its two locks: what holds of mapping and store whenever `r.mutex` is free. */
module LockedIndex {
  import opened Wrappers
  import opened Cluster
  import opened CertificateIndex
  import opened Locks
  import opened Linearizability
  import Controller
  import Certificates
  import CertificateSystem

  /** Only the reconciler changes the store; anybody may read it. */
  ghost predicate IndexOnly(tr: seq<Event>) {
    forall j | 0 <= j < |tr| && tr[j].Took? :: OnIndex(tr[j].call) || OnlyReads(tr[j].call)
  }

  /** Every create, at its moment of effect, neither re-points its configmap nor shares another's data key. */
  ghost predicate Guarded(tr: seq<Event>) {
    forall j | 0 <= j < |tr| && tr[j].Took? && tr[j].call.CreateCall? ::
      tr[j].call.dataKey != "" && Guard(Replay(tr[..j]), tr[j].call.mapKey, tr[j].call.dataKey)
  }

  /** The index operations in the order they took effect. */
  function OpsOf(tr: seq<Event>): seq<Op> {
    if tr == [] then []
    else
      var before, e := OpsOf(tr[..|tr| - 1]), tr[|tr| - 1];
      match e
      case Took(_, CreateCall(m, k, d), _) => before + [Create(m, k, d)]
      case Took(_, DeleteCall(m), _) => before + [Delete(m)]
      case _ => before
  }

  lemma {:induction false} ReplayIsDoAll(tr: seq<Event>)
    requires IndexOnly(tr)
    ensures Replay(tr) == DoAll(OpsOf(tr))
  {
    if tr != [] {
      var n := |tr| - 1;
      ReplayIsDoAll(tr[..n]);
      assert tr[n].Took? && OnIndex(tr[n].call) ==> OpsOf(tr)[..|OpsOf(tr)| - 1] == OpsOf(tr[..n]);
    }
  }

  lemma {:induction false} ReplayIsConsistent(tr: seq<Event>)
    requires IndexOnly(tr) && Guarded(tr)
    ensures Consistent(Replay(tr))
  {
    if tr != [] {
      var n := |tr| - 1;
      forall j | 0 <= j < n ensures tr[..n][..j] == tr[..j] {}
      ReplayIsConsistent(tr[..n]);
      if tr[n].Took? {
        match tr[n].call
        case CreateCall(m, k, d) => CreateKeepsIff(Replay(tr[..n]), m, k, d);
        case DeleteCall(m) => DeleteKeeps(Replay(tr[..n]), m);
        case _ =>
      }
    }
  }

  /** With the mutex free, what is in memory is what the operations amount to, one after the other. */
  lemma FreeMutexShowsReplay(ex: Execution, i: nat)
    requires Possible(ex) && i < |ex.states| && ex.states[i].shared.mutex == None
    ensures Index(ex.states[i].shared.mapping, ex.states[i].shared.store) == Replay(Trace(ex, i))
  {
    EveryInterleavingIsSequential(ex, i);
  }

  /**
   * Index invariant, over every interleaving: if no create re-points or shares, then whenever the mutex is
   * free the store's keys are the mapped data keys, one to one, and `Len` is the size of the mapping.
   */
  lemma ConsistentWheneverFree(ex: Execution, i: nat)
    requires Possible(ex) && i < |ex.states| && ex.states[i].shared.mutex == None
    requires IndexOnly(Trace(ex, i)) && Guarded(Trace(ex, i))
    ensures var s := ex.states[i].shared;
            Consistent(Index(s.mapping, s.store)) && s.store.Keys == s.mapping.Values && |s.store| == |s.mapping|
  {
    FreeMutexShowsReplay(ex, i);
    ReplayIsConsistent(Trace(ex, i));
    ConsistentSizes(Replay(Trace(ex, i)));
  }

  /**
   * The same for the controller: when the operations that took effect are those of an exclusive run so far,
   * then whenever the mutex is free memory holds exactly what that run has committed, payloads included.
   */
  lemma FaithfulWheneverFree(
      libs: Certificates.Libs, prog: CertificateSystem.CertProgram, run: CertificateSystem.CertRun, n: nat,
      ex: Execution, i: nat)
    requires Controller.IsRun(prog, run) && CertificateSystem.Runs(libs, prog) && CertificateSystem.Exclusive(run)
    requires n < |run.states| && Possible(ex) && i < |ex.states| && ex.states[i].shared.mutex == None
    requires IndexOnly(Trace(ex, i)) && OpsOf(Trace(ex, i)) == CertificateSystem.Effects(run, n)
    ensures var s := ex.states[i].shared;
            CertificateSystem.Faithful(Index(s.mapping, s.store), run.states[n].own) && |s.store| == |s.mapping|
  {
    FreeMutexShowsReplay(ex, i);
    ReplayIsDoAll(Trace(ex, i));
    CertificateSystem.IndexIsFaithful(libs, prog, run, n);
    ConsistentSizes(CertificateSystem.IndexAt(run, n));
  }

  // ---------------------------------------------------------------- what readers get

  /** The call that takes effect at `i` stores `d` under `k`. */
  ghost predicate Stores(tr: seq<Event>, i: nat, k: string, d: Bytes) {
    && i < |tr| && tr[i].Took?
    && match tr[i].call
       case Write(key, data) => key == k && data == d
       case CreateCall(_, key, data) => key == k && data == d
       case _ => false
  }

  /** The call that takes effect at `i` stores something under `k`. */
  ghost predicate Overwrites(tr: seq<Event>, i: nat, k: string) {
    && i < |tr| && tr[i].Took?
    && match tr[i].call
       case Write(key, _) => key == k
       case CreateCall(_, key, _) => key == k
       case _ => false
  }

  /** The call that takes effect at `i` takes `k` out of the store, by name or by way of its configmap. */
  ghost predicate TakesOut(tr: seq<Event>, i: nat, k: string) {
    && i < |tr| && tr[i].Took?
    && match tr[i].call
       case Erase(key) => key == k
       case DeleteCall(m) => Lookup(Replay(tr[..i]).mapping, m) == Some(k)
       case _ => false
  }

  /** At `i` the entry `d` is stored under `k`, and nothing later overwrites it or takes it out. */
  ghost predicate LastStores(tr: seq<Event>, i: nat, k: string, d: Bytes) {
    && Stores(tr, i, k, d)
    && forall j | i < j < |tr| :: !Overwrites(tr, j, k) && !TakesOut(tr, j, k)
  }

  /** A read returns what was last stored under its key and not taken out since, whoever did either. */
  lemma {:induction false} ReadsLastStored(tr: seq<Event>, k: string, d: Bytes)
    requires k != ""
    ensures Atomically(Replay(tr), Read(k)).1 == Got(Some(d)) <==> exists i :: LastStores(tr, i, k, d)
  {
    if tr != [] {
      var n := |tr| - 1;
      ReadsLastStored(tr[..n], k, d);
      forall j: nat | j < n ensures tr[..n][..j] == tr[..j] {}
      if Overwrites(tr, n, k) {
        if Stores(tr, n, k, d) { assert LastStores(tr, n, k, d); }
      } else {
        forall i: nat | i < n
          ensures LastStores(tr, i, k, d) <==> LastStores(tr[..n], i, k, d) && !TakesOut(tr, n, k)
        {
          LastStoresOfPrefix(tr, i, k, d);
        }
        EffectOnKey(tr, k);
      }
    }
  }

  lemma LastStoresOfPrefix(tr: seq<Event>, i: nat, k: string, d: Bytes)
    requires tr != [] && i < |tr| - 1 && !Overwrites(tr, |tr| - 1, k)
    ensures LastStores(tr, i, k, d) <==> LastStores(tr[..|tr| - 1], i, k, d) && !TakesOut(tr, |tr| - 1, k)
  {
    var n := |tr| - 1;
    forall j: nat | j < n
      ensures TakesOut(tr[..n], j, k) == TakesOut(tr, j, k) && Overwrites(tr[..n], j, k) == Overwrites(tr, j, k)
    {
      assert tr[..n][..j] == tr[..j];
    }
    assert Stores(tr[..n], i, k, d) == Stores(tr, i, k, d);
    if LastStores(tr, i, k, d) {
      assert !TakesOut(tr, n, k);
      forall j | i < j < n ensures !Overwrites(tr[..n], j, k) && !TakesOut(tr[..n], j, k) {
        assert !Overwrites(tr, j, k) && !TakesOut(tr, j, k);
      }
    }
    if LastStores(tr[..n], i, k, d) && !TakesOut(tr, n, k) {
      forall j | i < j < |tr| ensures !Overwrites(tr, j, k) && !TakesOut(tr, j, k) {
        assert j < n ==> !Overwrites(tr[..n], j, k) && !TakesOut(tr[..n], j, k);
      }
    }
  }

  /** The last event changes `k` only by storing or taking out. */
  lemma EffectOnKey(tr: seq<Event>, k: string)
    requires tr != [] && k != "" && !Overwrites(tr, |tr| - 1, k)
    ensures Lookup(Replay(tr).store, k) ==
              if TakesOut(tr, |tr| - 1, k) then None else Lookup(Replay(tr[..|tr| - 1]).store, k)
  {
  }

  /** And the size counts the keys a read would find. */
  lemma LenCountsReadable(tr: seq<Event>)
    ensures Atomically(Replay(tr), Len).1 ==
        Size(|set k | k in Replay(tr).store && Atomically(Replay(tr), Read(k)).1 != Got(None)|)
  {
    assert (set k | k in Replay(tr).store && Atomically(Replay(tr), Read(k)).1 != Got(None)) == Replay(tr).store.Keys;
  }
}
