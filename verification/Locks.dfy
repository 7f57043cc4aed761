/**
 * Concurrent callers of one store, lock step by lock step: HTTP readers and direct writers take only
 * the store's RWMutex, index operations hold the reconciler's mutex around it. A blocked `Lock` keeps
 * new readers out, as sync.RWMutex promises.
 */
module Locks {
  import opened Wrappers
  import opened Cluster
  import opened CertificateIndex

  /** The calls: on the store alone, and the reconciler's two index operations. */
  datatype Call =
    | Read(key: string)
    | Len
    | Write(key: string, data: Bytes)
    | Erase(key: string)
    | CreateCall(mapKey: string, dataKey: string, data: Bytes)
    | DeleteCall(mapKey: string)

  datatype Reply = Got(found: Option<Bytes>) | Size(n: nat) | Ack

  /** What a call will do to the store once it holds the write lock. */
  datatype Effect = Put(key: string, data: Bytes) | Remove(key: string)

  datatype Stage =
    | Invoked
    | Owning                           // r.mutex is held
    | Prepared(effect: Effect)         // the copy is made, the store's lock not yet asked for
    | Waiting(effect: Effect)          // Lock called: new readers are kept out
    | Writing(effect: Effect)          // the write lock is held
    | Written                          // the store is changed, the write lock still held
    | Released                         // the write lock is given back
    | Reading                          // a read lock is held
    | Fetched(found: Option<Bytes>)    // the entry is found, not yet copied
    | Answered(reply: Reply)           // the reply is ready, the read lock still held
    | Finished(reply: Reply)           // no lock is held, about to return

  datatype Thread = Idle | Busy(call: Call, stage: Stage)

  /** What threads share: the reconciler's mapping, the store, and who holds which lock. */
  datatype Shared = Shared(
    mapping: map<string, string>,
    store: map<string, Bytes>,
    mutex: Option<nat>,
    writer: Option<nat>,
    readers: set<nat>
  )

  datatype System = System(shared: Shared, threads: seq<Thread>)

  predicate OnIndex(call: Call) {
    call.CreateCall? || call.DeleteCall?
  }

  predicate OnlyReads(call: Call) {
    call.Read? || call.Len?
  }

  function Affect(store: map<string, Bytes>, e: Effect): map<string, Bytes> {
    match e
    case Put(k, d) => store[k := d]
    case Remove(k) => store - {k}
  }

  /** How far a call is from its end. */
  function Rank(th: Thread): nat {
    if th.Idle? then 0 else
    match th.stage
    case Invoked => 9
    case Owning => 8
    case Prepared(_) => 7
    case Waiting(_) => 6
    case Writing(_) => 5
    case Written => 4
    case Released => 3
    case Reading => 4
    case Fetched(_) => 3
    case Answered(_) => 2
    case Finished(_) => 1
  }

  /** The next step of thread `t`, being `th`; None when it is idle or must wait for a lock. */
  function Move(s: Shared, t: nat, th: Thread): (moved: Option<(Shared, Thread)>)
    ensures moved.Some? ==> Rank(moved.value.1) < Rank(th)
  {
    if th.Idle? then None else
    var call := th.call;
    match th.stage
    case Invoked =>
      if OnlyReads(call) then
        if s.writer.Some? then None else Some((s.(readers := s.readers + {t}), Busy(call, Reading)))
      else if OnIndex(call) then
        if s.mutex.Some? then None else Some((s.(mutex := Some(t)), Busy(call, Owning)))
      else Some((s, Busy(call, Prepared(if call.Write? then Put(call.key, call.data) else Remove(call.key)))))
    case Owning =>
      if call.CreateCall? then
        Some((s.(mapping := s.mapping[call.mapKey := call.dataKey]),
            Busy(call, Prepared(Put(call.dataKey, call.data)))))
      else if call.DeleteCall? then
        Some((s, Busy(call, Prepared(Remove(if call.mapKey in s.mapping then s.mapping[call.mapKey] else "")))))
      else None
    case Prepared(e) => if s.writer.Some? then None else Some((s.(writer := Some(t)), Busy(call, Waiting(e))))
    case Waiting(e) => if s.readers != {} then None else Some((s, Busy(call, Writing(e))))
    case Writing(e) => Some((s.(store := Affect(s.store, e)), Busy(call, Written)))
    case Written => Some((s.(writer := None), Busy(call, Released)))
    case Released =>
      if call.DeleteCall? then Some((s.(mapping := s.mapping - {call.mapKey}, mutex := None),
          Busy(call, Finished(Ack))))
      else if call.CreateCall? then Some((s.(mutex := None), Busy(call, Finished(Ack))))
      else Some((s, Busy(call, Finished(Ack))))
    case Reading =>
      Some((s, Busy(call, if call.Read? then Fetched(Lookup(s.store, call.key)) else Answered(Size(|s.store|)))))
    case Fetched(found) => Some((s, Busy(call, Answered(Got(found)))))
    case Answered(r) => Some((s.(readers := s.readers - {t}), Busy(call, Finished(r))))
    case Finished(_) => Some((s, Idle))
  }

  datatype Action = Invoke(thread: nat, call: Call) | Run(thread: nat)

  predicate CanAct(s: System, a: Action) {
    && a.thread < |s.threads|
    && match a case Invoke(t, _) => s.threads[t].Idle? case Run(t) => Move(s.shared, t, s.threads[t]).Some?
  }

  function Act(s: System, a: Action): System
    requires CanAct(s, a)
  {
    match a
    case Invoke(t, call) => s.(threads := s.threads[t := Busy(call, Invoked)])
    case Run(t) =>
      var (shared, th) := Move(s.shared, t, s.threads[t]).value;
      System(shared, s.threads[t := th])
  }

  /** All interleavings: any enabled actions, one after the other, of threads on an empty store. */
  datatype Execution = Execution(states: seq<System>, actions: seq<Action>)

  ghost predicate Starts(s: System) {
    && s.shared == Shared(map[], map[], None, None, {})
    && forall t | 0 <= t < |s.threads| :: s.threads[t].Idle?
  }

  ghost predicate Possible(ex: Execution) {
    && |ex.states| == |ex.actions| + 1 && Starts(ex.states[0])
    && forall i | 0 <= i < |ex.actions| :: CanAct(ex.states[i], ex.actions[i])
        && ex.states[i + 1] == Act(ex.states[i], ex.actions[i])
  }

  // ---------------------------------------------------------------- lock discipline

  predicate HoldsWrite(th: Thread) {
    th.Busy? && (th.stage.Waiting? || th.stage.Writing? || th.stage.Written?)
  }

  predicate HoldsRead(th: Thread) {
    th.Busy? && (th.stage.Reading? || th.stage.Fetched? || th.stage.Answered?)
  }

  predicate HoldsMutex(th: Thread) {
    && th.Busy? && OnIndex(th.call)
    && (th.stage.Owning? || th.stage.Prepared? || th.stage.Released? || HoldsWrite(th))
  }

  /** Stages only the right kind of call can reach. */
  predicate WellTyped(th: Thread) {
    th.Busy? ==>
      && (HoldsRead(th) ==> OnlyReads(th.call))
      && (th.stage.Fetched? ==> th.call.Read?)
      && (th.stage.Owning? ==> OnIndex(th.call))
      && (th.stage.Prepared? || th.stage.Released? || HoldsWrite(th) ==> !OnlyReads(th.call))
  }

  /** Thread `t`, being `th`, holds exactly the locks its stage says, and writing excludes reading. */
  predicate ThreadAgrees(s: Shared, t: nat, th: Thread) {
    && WellTyped(th)
    && (s.writer == Some(t) <==> HoldsWrite(th))
    && (t in s.readers <==> HoldsRead(th))
    && (s.mutex == Some(t) <==> HoldsMutex(th))
    && (th.Busy? && (th.stage.Writing? || th.stage.Written?) ==> s.readers == {})
  }

  /** Only threads there are hold locks. */
  predicate HoldersExist(s: Shared, n: nat) {
    && (s.writer.Some? ==> s.writer.value < n) && (s.mutex.Some? ==> s.mutex.value < n)
    && forall t | t in s.readers :: t < n
  }

  ghost predicate LocksAgree(s: System) {
    HoldersExist(s.shared, |s.threads|) && forall t | 0 <= t < |s.threads| :: ThreadAgrees(s.shared, t, s.threads[t])
  }

  lemma MoveKeepsSelf(s: Shared, t: nat, th: Thread)
    requires ThreadAgrees(s, t, th) && Move(s, t, th).Some?
    ensures ThreadAgrees(Move(s, t, th).value.0, t, Move(s, t, th).value.1)
  {
  }

  lemma MoveKeepsOther(s: Shared, t: nat, th: Thread, u: nat, other: Thread)
    requires t != u && ThreadAgrees(s, t, th) && ThreadAgrees(s, u, other) && Move(s, t, th).Some?
    ensures ThreadAgrees(Move(s, t, th).value.0, u, other)
  {
  }

  lemma ActKeepsLocks(s: System, a: Action)
    requires LocksAgree(s) && CanAct(s, a)
    ensures LocksAgree(Act(s, a))
  {
    assert ThreadAgrees(s.shared, a.thread, s.threads[a.thread]);
    forall u | 0 <= u < |s.threads| ensures ThreadAgrees(Act(s, a).shared, u, Act(s, a).threads[u]) {
      if a.Run? {
        if u == a.thread { MoveKeepsSelf(s.shared, u, s.threads[u]); }
        else { MoveKeepsOther(s.shared, a.thread, s.threads[a.thread], u, s.threads[u]); }
      }
    }
  }

  lemma {:induction false} LocksHold(ex: Execution, i: nat)
    requires Possible(ex) && i < |ex.states|
    ensures LocksAgree(ex.states[i])
  {
    if i > 0 {
      LocksHold(ex, i - 1);
      ActKeepsLocks(ex.states[i - 1], ex.actions[i - 1]);
    }
  }

  /** No deadlock: while any call is in progress, some thread can move. */
  lemma SomeThreadMoves(s: System, t: nat) returns (u: nat)
    requires LocksAgree(s) && t < |s.threads| && s.threads[t].Busy?
    ensures u < |s.threads| && CanAct(s, Run(u))
  {
    assert ThreadAgrees(s.shared, t, s.threads[t]);
    if CanAct(s, Run(t)) {
      u := t;
    } else if s.shared.writer.Some? {
      u := s.shared.writer.value;
      assert ThreadAgrees(s.shared, u, s.threads[u]);
      if !CanAct(s, Run(u)) {
        u :| u in s.shared.readers;
        assert ThreadAgrees(s.shared, u, s.threads[u]);
      }
    } else {
      u := s.shared.mutex.value;
      assert ThreadAgrees(s.shared, u, s.threads[u]);
    }
  }

  function Total(threads: seq<Thread>): nat {
    if threads == [] then 0 else Rank(threads[0]) + Total(threads[1..])
  }

  lemma {:induction false} TotalUpdate(threads: seq<Thread>, t: nat, th: Thread)
    requires t < |threads|
    ensures Total(threads[t := th]) == Total(threads) - Rank(threads[t]) + Rank(th)
  {
    if t == 0 {
      assert threads[t := th][1..] == threads[1..];
    } else {
      TotalUpdate(threads[1..], t - 1, th);
      assert threads[t := th][1..] == threads[1..][t - 1 := th];
    }
  }

  /** From any reachable state, moves alone can finish every call in progress. */
  lemma {:induction false} AllCallsCanFinish(ex: Execution) returns (longer: Execution)
    requires Possible(ex)
    ensures Possible(longer) && ex.states <= longer.states && ex.actions <= longer.actions
    ensures forall i | |ex.actions| <= i < |longer.actions| :: longer.actions[i].Run?
    ensures forall t | 0 <= t < |longer.states[|longer.actions|].threads| ::
        longer.states[|longer.actions|].threads[t].Idle?
    decreases Total(ex.states[|ex.actions|].threads)
  {
    var s := ex.states[|ex.actions|];
    if t :| 0 <= t < |s.threads| && s.threads[t].Busy? {
      LocksHold(ex, |ex.actions|);
      var u := SomeThreadMoves(s, t);
      TotalUpdate(s.threads, u, Act(s, Run(u)).threads[u]);
      longer := AllCallsCanFinish(Execution(ex.states + [Act(s, Run(u))], ex.actions + [Run(u)]));
    } else {
      longer := ex;
    }
  }

  /** However the scheduler chooses, moves alone run out: there are at most as many as the calls have left. */
  lemma {:induction false} MovesRunOut(ex: Execution, i: nat, j: nat)
    requires Possible(ex) && i <= j < |ex.states| && forall k | i <= k < j :: ex.actions[k].Run?
    ensures j - i + Total(ex.states[j].threads) <= Total(ex.states[i].threads)
  {
    if i < j {
      MovesRunOut(ex, i, j - 1);
      var s, t := ex.states[j - 1], ex.actions[j - 1].thread;
      TotalUpdate(s.threads, t, ex.states[j].threads[t]);
    }
  }
}
