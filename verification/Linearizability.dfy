/** Every interleaving of the lock machine is equivalent to calls that act one at a time, in one order. */
module Linearizability {
  import opened Wrappers
  import opened Cluster
  import opened CertificateIndex
  import opened Locks

  /** What callers see, call and return, with the moment in between at which a call takes effect. */
  datatype Event =
    | Called(thread: nat, call: Call)
    | Took(thread: nat, call: Call, reply: Reply)
    | Returned(thread: nat, reply: Reply)

  function EventOf(s: System, a: Action): seq<Event>
    requires CanAct(s, a)
  {
    match a
    case Invoke(t, call) => [Called(t, call)]
    case Run(t) =>
      var call := s.threads[t].call;
      match s.threads[t].stage
      case Reading =>
        [Took(t, call, if call.Read? then Got(Lookup(s.shared.store, call.key)) else Size(|s.shared.store|))]
      case Writing(_) => [Took(t, call, Ack)]
      case Finished(r) => [Returned(t, r)]
      case _ => []
  }

  ghost function Trace(ex: Execution, i: nat): seq<Event>
    requires Possible(ex) && i < |ex.states|
  {
    if i == 0 then [] else Trace(ex, i - 1) + EventOf(ex.states[i - 1], ex.actions[i - 1])
  }

  /** A call on its own, with nobody else around. */
  function Atomically(ix: Index, call: Call): (Index, Reply) {
    match call
    case Read(k) => (ix, Got(Lookup(ix.store, k)))
    case Len => (ix, Size(|ix.store|))
    case Write(k, d) => (ix.(store := ix.store[k := d]), Ack)
    case Erase(k) => (ix.(store := ix.store - {k}), Ack)
    case CreateCall(m, k, d) => (CreateMapping(ix, m, k, d), Ack)
    case DeleteCall(m) => (DeleteMapping(ix, m), Ack)
  }

  /** The index after the calls of `tr`, taken in the order of their `Took` events. */
  function Replay(tr: seq<Event>): Index {
    if tr == [] then EMPTY
    else
      var ix, e := Replay(tr[..|tr| - 1]), tr[|tr| - 1];
      if e.Took? then Atomically(ix, e.call).0 else ix
  }

  /** Every reply is the one the call gets when the calls before it have acted, one at a time. */
  ghost predicate Sequential(tr: seq<Event>) {
    forall i | 0 <= i < |tr| && tr[i].Took? :: tr[i].reply == Atomically(Replay(tr[..i]), tr[i].call).1
  }

  datatype Phase = Out | Pending(call: Call) | Done(reply: Reply) | Broken

  /** Per thread, events come as call, effect, return, over and over; anything else is Broken. */
  function PhaseOf(tr: seq<Event>, t: nat): Phase {
    if tr == [] then Out
    else
      var before, e := PhaseOf(tr[..|tr| - 1], t), tr[|tr| - 1];
      if e.thread != t then before
      else match e
        case Called(_, call) => if before.Out? then Pending(call) else Broken
        case Took(_, call, reply) => if before == Pending(call) then Done(reply) else Broken
        case Returned(_, reply) => if before == Done(reply) then Out else Broken
  }

  // ---------------------------------------------------------------- the machine against the replay

  function PhaseAt(th: Thread): Phase {
    if th.Idle? then Out else
    match th.stage
    case Written => Done(Ack)
    case Released => Done(Ack)
    case Fetched(found) => Done(Got(found))
    case Answered(r) => Done(r)
    case Finished(r) => Done(r)
    case _ => Pending(th.call)
  }

  /** The effect a thread has prepared is the one its call stands for. */
  ghost predicate EffectFits(mapping: map<string, string>, th: Thread) {
    th.Busy? && (th.stage.Prepared? || th.stage.Waiting? || th.stage.Writing?) ==>
      match th.call
      case Write(k, d) => th.stage.effect == Put(k, d)
      case Erase(k) => th.stage.effect == Remove(k)
      case CreateCall(_, k, d) => th.stage.effect == Put(k, d)
      case DeleteCall(m) => th.stage.effect == Remove(if m in mapping then mapping[m] else "")
      case _ => true
  }

  /** The mapping as the mutex holder `th` has it so far, against the mapping of the replay. */
  ghost predicate MappingFits(mapping: map<string, string>, replayed: map<string, string>, th: Thread) {
    th.Busy? &&
    match th.call
    case CreateCall(m, k, _) =>
      mapping == if th.stage.Prepared? || th.stage.Waiting? || th.stage.Writing? then replayed[m := k] else replayed
    case DeleteCall(m) =>
      if th.stage.Written? || th.stage.Released? then mapping - {m} == replayed else mapping == replayed
    case _ => false
  }

  /** Mapping and replay differ only while somebody holds the mutex. */
  ghost predicate MappingsAgree(s: System, ix: Index)
    requires HoldersExist(s.shared, |s.threads|)
  {
    if s.shared.mutex.None? then s.shared.mapping == ix.mapping
    else MappingFits(s.shared.mapping, ix.mapping, s.threads[s.shared.mutex.value])
  }

  ghost predicate Refines(s: System, ix: Index) {
    && LocksAgree(s) && s.shared.store == ix.store && MappingsAgree(s, ix)
    && forall t | 0 <= t < |s.threads| :: EffectFits(s.shared.mapping, s.threads[t])
  }

  /** The index after one action: it moves exactly when the action is a call's moment of effect. */
  function Moved(s: System, a: Action, ix: Index): Index
    requires CanAct(s, a)
  {
    var events := EventOf(s, a);
    if events != [] && events[0].Took? then Atomically(ix, events[0].call).0 else ix
  }

  /** A write takes effect on the store as its call does on its own. */
  lemma WriteRefines(s: Shared, t: nat, th: Thread, ix: Index)
    requires ThreadAgrees(s, t, th) && EffectFits(s.mapping, th) && th.Busy? && th.stage.Writing? && s.store == ix.store
    requires s.mutex == Some(t) ==> MappingFits(s.mapping, ix.mapping, th)
    ensures Affect(s.store, th.stage.effect) == Atomically(ix, th.call).0.store && Atomically(ix, th.call).1 == Ack
  {
  }

  lemma StoreRefines(s: System, a: Action, ix: Index)
    requires Refines(s, ix) && CanAct(s, a)
    ensures Act(s, a).shared.store == Moved(s, a, ix).store
    ensures EventOf(s, a) != [] && EventOf(s, a)[0].Took? ==>
        EventOf(s, a)[0].reply == Atomically(ix, EventOf(s, a)[0].call).1
  {
    var th := s.threads[a.thread];
    assert ThreadAgrees(s.shared, a.thread, th) && EffectFits(s.shared.mapping, th);
    if a.Run? && th.stage.Writing? { WriteRefines(s.shared, a.thread, th, ix); }
  }

  lemma HolderMappingRefines(s: System, t: nat, ix: Index)
    requires CanAct(s, Run(t)) && ThreadAgrees(s.shared, t, s.threads[t]) && EffectFits(s.shared.mapping, s.threads[t])
    requires s.shared.mutex == Some(t) && MappingFits(s.shared.mapping, ix.mapping, s.threads[t])
    ensures var after, moved := Act(s, Run(t)), Moved(s, Run(t), ix);
            && (after.shared.mutex == Some(t) || after.shared.mutex == None)
            && if after.shared.mutex == None then after.shared.mapping == moved.mapping
               else MappingFits(after.shared.mapping, moved.mapping, after.threads[t])
  {
  }

  lemma OtherKeepsMapping(s: Shared, t: nat, th: Thread)
    requires ThreadAgrees(s, t, th) && Move(s, t, th).Some? && s.mutex != Some(t)
    ensures var (s', th') := Move(s, t, th).value;
            && s'.mapping == s.mapping
            && (s'.mutex == s.mutex
                || (s.mutex == None && s'.mutex == Some(t) && th' == Busy(th.call, Owning) && OnIndex(th.call)))
    ensures OnIndex(th.call) ==> th.stage.Invoked? || th.stage.Finished?
  {
  }

  lemma OtherKeepsReplay(s: System, t: nat, ix: Index)
    requires CanAct(s, Run(t))
        && (OnIndex(s.threads[t].call) ==> s.threads[t].stage.Invoked? || s.threads[t].stage.Finished?)
    ensures Moved(s, Run(t), ix).mapping == ix.mapping
  {
    assert OnIndex(s.threads[t].call) || Atomically(ix, s.threads[t].call).0.mapping == ix.mapping;
  }

  lemma MappingRefines(s: System, a: Action, ix: Index)
    requires Refines(s, ix) && CanAct(s, a)
    ensures HoldersExist(Act(s, a).shared, |s.threads|) && MappingsAgree(Act(s, a), Moved(s, a, ix))
  {
    ActKeepsLocks(s, a);
    assert ThreadAgrees(s.shared, a.thread, s.threads[a.thread]) && EffectFits(s.shared.mapping, s.threads[a.thread]);
    if a.Run? && s.shared.mutex == Some(a.thread) {
      HolderMappingRefines(s, a.thread, ix);
    } else if a.Run? {
      OtherKeepsMapping(s.shared, a.thread, s.threads[a.thread]);
      OtherKeepsReplay(s, a.thread, ix);
    }
  }

  lemma OwnEffectRefines(s: Shared, t: nat, th: Thread)
    requires EffectFits(s.mapping, th) && Move(s, t, th).Some?
    ensures EffectFits(Move(s, t, th).value.0.mapping, Move(s, t, th).value.1)
  {
  }

  lemma EffectsRefine(s: System, a: Action, ix: Index, u: nat)
    requires Refines(s, ix) && CanAct(s, a) && u < |s.threads|
    ensures EffectFits(Act(s, a).shared.mapping, Act(s, a).threads[u])
  {
    assert EffectFits(s.shared.mapping, s.threads[u]);
    if a.Run? {
      if u == a.thread {
        OwnEffectRefines(s.shared, u, s.threads[u]);
      } else {
        assert ThreadAgrees(s.shared, u, s.threads[u]) && ThreadAgrees(s.shared, a.thread, s.threads[a.thread]);
        if s.shared.mutex != Some(a.thread) { OtherKeepsMapping(s.shared, a.thread, s.threads[a.thread]); }
      }
    }
  }

  /** One action keeps the machine in step with the replay. */
  lemma ActRefines(s: System, a: Action, ix: Index)
    requires Refines(s, ix) && CanAct(s, a)
    ensures Refines(Act(s, a), Moved(s, a, ix))
  {
    StoreRefines(s, a, ix);
    ActKeepsLocks(s, a);
    MappingRefines(s, a, ix);
    forall u | 0 <= u < |s.threads| ensures EffectFits(Act(s, a).shared.mapping, Act(s, a).threads[u]) {
      EffectsRefine(s, a, ix, u);
    }
  }

  lemma PhaseMoves(s: System, a: Action, t: nat)
    requires CanAct(s, a) && LocksAgree(s) && t < |s.threads|
    ensures var events := EventOf(s, a);
            PhaseAt(Act(s, a).threads[t]) ==
              if events == [] || t != a.thread then PhaseAt(s.threads[t])
              else match events[0]
                case Called(_, call) => Pending(call)
                case Took(_, _, reply) => Done(reply)
                case Returned(_, _) => Out
  {
  }

  /**
   * Linearizability: in every interleaving, each thread's calls take effect once, between call and return,
   * and with the reply they return; and in the order of those moments they form a sequential run whose
   * index has the store as it is.
   */
  lemma {:induction false} EveryInterleavingIsSequential(ex: Execution, i: nat)
    requires Possible(ex) && i < |ex.states|
    ensures Sequential(Trace(ex, i)) && Refines(ex.states[i], Replay(Trace(ex, i)))
    ensures forall t | 0 <= t < |ex.states[i].threads| :: PhaseOf(Trace(ex, i), t) == PhaseAt(ex.states[i].threads[t])
  {
    if i == 0 {
      LocksHold(ex, 0);
    } else {
      EveryInterleavingIsSequential(ex, i - 1);
      var s, a, before := ex.states[i - 1], ex.actions[i - 1], Trace(ex, i - 1);
      OneMoreAction(s, a, before);
    }
  }

  lemma OneMoreAction(s: System, a: Action, tr: seq<Event>)
    requires CanAct(s, a) && Sequential(tr) && Refines(s, Replay(tr))
    requires forall t | 0 <= t < |s.threads| :: PhaseOf(tr, t) == PhaseAt(s.threads[t])
    ensures var after := tr + EventOf(s, a);
            && Sequential(after) && Refines(Act(s, a), Replay(after))
            && forall t | 0 <= t < |s.threads| :: PhaseOf(after, t) == PhaseAt(Act(s, a).threads[t])
  {
    StoreRefines(s, a, Replay(tr));
    ActRefines(s, a, Replay(tr));
    Extend(tr, EventOf(s, a), 0);
    forall t | 0 <= t < |s.threads| ensures PhaseOf(tr + EventOf(s, a), t) == PhaseAt(Act(s, a).threads[t]) {
      PhaseMoves(s, a, t);
      Extend(tr, EventOf(s, a), t);
    }
  }

  /** The reply of a call that takes effect now is what it gets when those before it have acted. */
  ghost predicate Fits(tr: seq<Event>, e: Event)
    requires e.Took?
  {
    e.reply == Atomically(Replay(tr), e.call).1
  }

  lemma Extend(tr: seq<Event>, events: seq<Event>, t: nat)
    requires |events| <= 1
    ensures events == [] ==> tr + events == tr
    ensures events != [] ==> (tr + events)[..|tr + events| - 1] == tr
    ensures Sequential(tr) && (events == [] || !events[0].Took? || Fits(tr, events[0])) ==> Sequential(tr + events)
  {
    if events == [] { assert tr + events == tr; }
    var all := tr + events;
    forall j | 0 <= j < |tr| ensures all[..j] == tr[..j] {}
    if events != [] { assert all[..|tr|] == tr; }
  }

  /** Every prefix of a trace is the trace so far at some earlier point. */
  lemma {:induction false} TracePrefix(ex: Execution, i: nat, n: nat) returns (j: nat)
    requires Possible(ex) && i < |ex.states| && n <= |Trace(ex, i)|
    ensures j <= i && Trace(ex, j) == Trace(ex, i)[..n]
  {
    if n == |Trace(ex, i)| {
      j := i;
    } else {
      j := TracePrefix(ex, i - 1, n);
    }
  }

  lemma {:induction false} EventThreadsExist(ex: Execution, i: nat)
    requires Possible(ex) && i < |ex.states|
    ensures forall e | e in Trace(ex, i) :: e.thread < |ex.states[i].threads|
  {
    if i > 0 { EventThreadsExist(ex, i - 1); }
  }

  /**
   * Spelled out: a completed call of any execution has one moment of effect, after its call and before its
   * return, and returns what it gets when the calls that took effect before it have acted one at a time.
   */
  lemma CompletedCallTookEffect(ex: Execution, i: nat, r: nat) returns (called: nat, took: nat)
    requires Possible(ex) && i < |ex.states| && r < |Trace(ex, i)| && Trace(ex, i)[r].Returned?
    ensures called < took < r
    ensures var tr := Trace(ex, i);
            && tr[called].Called? && tr[called].thread == tr[r].thread
            && tr[took] == Took(tr[r].thread, tr[called].call, tr[r].reply)
            && tr[r].reply == Atomically(Replay(tr[..took]), tr[called].call).1
            && forall j | called < j < r && j != took :: tr[j].thread != tr[r].thread
  {
    var tr, t := Trace(ex, i), Trace(ex, i)[r].thread;
    var j := TracePrefix(ex, i, r + 1);
    EveryInterleavingIsSequential(ex, j);
    EventThreadsExist(ex, j);
    assert tr[..r + 1][r] in Trace(ex, j);
    assert PhaseOf(tr[..r + 1], t) == PhaseAt(ex.states[j].threads[t]);
    called, took := ReturnFollowsCall(tr, t, r);
    EveryInterleavingIsSequential(ex, i);
  }

  /** In an unbroken sequence of events the two before a return, of its thread, are the effect and the call. */
  lemma {:induction false} ReturnFollowsCall(tr: seq<Event>, t: nat, r: nat) returns (called: nat, took: nat)
    requires r < |tr| && tr[r].Returned? && tr[r].thread == t && !PhaseOf(tr[..r + 1], t).Broken?
    ensures called < took < r && tr[called].Called? && tr[called].thread == t
    ensures tr[took] == Took(t, tr[called].call, tr[r].reply)
    ensures forall j | called < j < r && j != took :: tr[j].thread != t
  {
    assert tr[..r + 1][..r] == tr[..r];
    took := LastEvent(tr, t, r);
    assert tr[..took + 1][..took] == tr[..took];
    called := LastEvent(tr, t, took);
    assert tr[..called + 1][..called] == tr[..called];
  }

  /** The last event of `t` before `end`, when there must be one. */
  lemma {:induction false} LastEvent(tr: seq<Event>, t: nat, end: nat) returns (i: nat)
    requires end <= |tr| && PhaseOf(tr[..end], t) != Out && PhaseOf(tr[..end], t) != Broken
    ensures i < end && tr[i].thread == t && PhaseOf(tr[..i + 1], t) == PhaseOf(tr[..end], t)
    ensures forall j | i < j < end :: tr[j].thread != t
  {
    assert end > 0 && tr[..end][..end - 1] == tr[..end - 1];
    if tr[end - 1].thread == t { i := end - 1; } else { i := LastEvent(tr, t, end - 1); }
  }
}
