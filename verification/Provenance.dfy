/** Where committed data comes from, and how old it can be: facts about whole runs of `Controller`. */
module Provenance {
  import opened Wrappers
  import opened Cluster
  import opened Controller

  /** One reconcile: when it read its object, when each further read happened, when it committed. */
  datatype Evidence<O> = Evidence(start: nat, gets: seq<nat>, commit: nat, obj: O, seen: seq<Answer>)

  ghost predicate BusyFrom<K(!new), O(!new), D(!new)>(run: Run<K, O, D>, k: K, from: nat, to: nat) {
    to < |run.states| && forall t | from <= t <= to :: k in run.states[t].active
  }

  /** Position `t` is the read number `j` of the reconcile of `obj`, answered by the cache of that moment. */
  ghost predicate IsRead<K, O, D>(
      prog: Program<K, O, D>, run: Run<K, O, D>, k: K, obj: O, seen: seq<Answer>, j: nat, t: nat)
    requires j < |seen|
  {
    && t < |run.steps| && t < |run.states| && run.steps[t] == Get(k, false)
    && prog.next(k, obj, seen[..j]).Ask?
    && seen[j] == Respond(run.states[t].world, prog.next(k, obj, seen[..j]).query)
  }

  /** One uninterrupted processing of `k` read `obj` at `start` and then `seen` at `gets`, before `end`. */
  ghost predicate Observed<K(!new), O(!new), D(!new)>(prog: Program<K, O, D>, run: Run<K, O, D>, k: K,
                                                      obj: O, seen: seq<Answer>, start: nat, gets: seq<nat>, end: nat)
  {
    && start < end < |run.states| && start < |run.steps| && run.steps[start] == Get(k, false)
    && k in run.states[start].objs && run.states[start].objs[k] == obj
    && BusyFrom(run, k, start, end)
    && |gets| == |seen|
    && (forall j | 0 <= j < |gets| :: start < gets[j] < end && IsRead(prog, run, k, obj, seen, j, gets[j]))
    && forall j | 0 < j < |gets| :: gets[j - 1] < gets[j]
  }

  lemma {:induction false} AbsentObjectDrops<K(!new), O(!new), D(!new)>(
      prog: Program<K, O, D>, run: Run<K, O, D>, i: nat, k: K)
    requires IsRun(prog, run) && i < |run.states| && k in run.states[i].active
    requires run.states[i].active[k].Decided? && run.states[i].active[k].snapshot.None?
    ensures run.states[i].active[k].outcome == Drop
  {
    if i > 0 {
      WorkerStep(prog, run, i - 1, k);
      if run.steps[i - 1] != Get(k, false) { AbsentObjectDrops(prog, run, i - 1, k); }
    }
  }

  /** A worker past its first read really made the reads it remembers. */
  lemma {:induction false} Observe<K(!new), O(!new), D(!new)>(
      prog: Program<K, O, D>, run: Run<K, O, D>, i: nat, k: K, obj: O, seen: seq<Answer>)
      returns (start: nat, gets: seq<nat>)
    requires IsRun(prog, run) && i < |run.states| && k in run.states[i].active
    requires var local := run.states[i].active[k];
             local == Reading(obj, seen) || (local.Decided? && local.snapshot == Some(obj) && local.seen == seen)
    ensures Observed(prog, run, k, obj, seen, start, gets, i)
    ensures run.states[i].active[k].Decided? ==> prog.next(k, obj, seen) == Done(run.states[i].active[k].outcome)
  {
    assert i > 0;
    WorkerStep(prog, run, i - 1, k);
    var before := run.states[i - 1];
    if run.steps[i - 1] == Get(k, false) && before.active[k].Begun? {
      start, gets := i - 1, [];
    } else if run.steps[i - 1] == Get(k, false) && prog.next(k, obj, before.active[k].seen).Ask? {
      var earlier := before.active[k].seen;
      assert seen == earlier + [Respond(before.world, prog.next(k, obj, earlier).query)];
      start, gets := Observe(prog, run, i - 1, k, obj, earlier);
      forall j | 0 <= j < |earlier| ensures IsRead(prog, run, k, obj, seen, j, gets[j]) {
        assert IsRead(prog, run, k, obj, earlier, j, gets[j]);
        assert seen[..j] == earlier[..j];
      }
      assert seen[..|earlier|] == earlier;
      gets := gets + [i - 1];
    } else {
      start, gets := Observe(prog, run, i - 1, k, obj, seen);
    }
  }

  /** Step `t` commits `d` for `k`. */
  ghost predicate Keeps<K(!new), O(!new), D(!new)>(run: Run<K, O, D>, t: nat, k: K, d: D) {
    && t < |run.steps| && t < |run.states| && run.steps[t] == Commit(k)
    && k in run.states[t].active && run.states[t].active[k].Decided? && run.states[t].active[k].outcome == Keep(d)
  }

  /** The reconcile described by `e` ended by committing `d` for `k`. */
  ghost predicate Witness<K(!new), O(!new), D(!new)>(
      prog: Program<K, O, D>, run: Run<K, O, D>, k: K, d: D, e: Evidence<O>)
  {
    && Observed(prog, run, k, e.obj, e.seen, e.start, e.gets, e.commit)
    && Keeps(run, e.commit, k, d) && prog.next(k, e.obj, e.seen) == Done(Keep(d))
  }

  ghost predicate OwnedSince<K(!new), O(!new), D(!new)>(run: Run<K, O, D>, k: K, d: D, from: nat, to: nat) {
    to < |run.states| && forall t | from < t <= to :: k in run.states[t].own && run.states[t].own[k] == d
  }

  /** Every commit that writes ends a reconcile that saw all it needed. */
  lemma CommitHasWitness<K(!new), O(!new), D(!new)>(
      prog: Program<K, O, D>, run: Run<K, O, D>, w: nat, k: K, d: D) returns (e: Evidence<O>)
    requires IsRun(prog, run) && Keeps(run, w, k, d)
    ensures Witness(prog, run, k, d, e) && e.commit == w
  {
    var local := run.states[w].active[k];
    if local.snapshot.None? { AbsentObjectDrops(prog, run, w, k); }
    var start, gets := Observe(prog, run, w, k, local.snapshot.value, local.seen);
    e := Evidence(start, gets, w, local.snapshot.value, local.seen);
  }

  /** Provenance: whatever a key has committed was decided by one earlier reconcile that saw it all. */
  lemma {:induction false} CommittedDataHasWitness<K(!new), O(!new), D(!new)>(
      prog: Program<K, O, D>, run: Run<K, O, D>, i: nat, k: K) returns (e: Evidence<O>)
    requires IsRun(prog, run) && i < |run.states| && k in run.states[i].own
    ensures Witness(prog, run, k, run.states[i].own[k], e) && e.commit < i
    ensures OwnedSince(run, k, run.states[i].own[k], e.commit, i)
  {
    assert i > 0;
    assert IsStep(prog, run, i - 1);
    var before := run.states[i - 1];
    if run.steps[i - 1] == Commit(k) && before.active[k].outcome.Keep? {
      e := CommitHasWitness(prog, run, i - 1, k, before.active[k].outcome.data);
    } else {
      e := CommittedDataHasWitness(prog, run, i - 1, k);
    }
  }

  // ---------------------------------------------------------------- what the queue promises

  /** The worker on `k` is gone by step `c`: it has committed, or one of its reads has failed. */
  ghost predicate Leaves<K(!new), O(!new), D(!new)>(run: Run<K, O, D>, c: nat, k: K) {
    c < |run.steps| && (run.steps[c] == Commit(k) || run.steps[c] == Get(k, true))
  }

  lemma WorkerArrivesOrLeaves<K(!new), O(!new), D(!new)>(prog: Program<K, O, D>, run: Run<K, O, D>, i: nat, k: K)
    requires IsRun(prog, run) && i < |run.steps|
    ensures run.steps[i] == Start(k) ==> k in run.states[i + 1].active
    ensures k in run.states[i].active && k !in run.states[i + 1].active ==> Leaves(run, i, k)
  {
    assert IsStep(prog, run, i);
  }

  /** No key is processed twice at once: a key is started again only after its worker has left. */
  lemma {:induction false} OneWorkerPerKey<K(!new), O(!new), D(!new)>(
      prog: Program<K, O, D>, run: Run<K, O, D>, i: nat, j: nat, k: K) returns (c: nat)
    requires IsRun(prog, run) && i < j <= |run.steps| && run.steps[i] == Start(k)
    requires k !in run.states[j].active
    ensures i < c < j && Leaves(run, c, k)
  {
    WorkerArrivesOrLeaves(prog, run, j - 1, k);
    if k in run.states[j - 1].active {
      c := j - 1;
    } else {
      c := OneWorkerPerKey(prog, run, i, j - 1, k);
    }
  }

  /** Restarting a key is starting it with no worker on it. */
  lemma StartsAreApart<K(!new), O(!new), D(!new)>(prog: Program<K, O, D>, run: Run<K, O, D>, i: nat, j: nat, k: K)
      returns (c: nat)
    requires IsRun(prog, run) && i < j < |run.steps| && run.steps[i] == Start(k) && run.steps[j] == Start(k)
    ensures i < c < j && Leaves(run, c, k)
  {
    assert IsStep(prog, run, j);
    c := OneWorkerPerKey(prog, run, i, j, k);
  }

  /** Never more than fifty workers. */
  lemma {:induction false} AtMostFiftyWorkers<K(!new), O(!new), D(!new)>(
      prog: Program<K, O, D>, run: Run<K, O, D>, i: nat)
    requires IsRun(prog, run) && i < |run.states|
    ensures |run.states[i].active| <= 50
  {
    if i > 0 {
      AtMostFiftyWorkers(prog, run, i - 1);
      assert IsStep(prog, run, i - 1);
      WorkersStep(prog, run.states[i - 1], run.steps[i - 1]);
    }
  }

  lemma WorkersStep<K(!new), O(!new), D(!new)>(prog: Program<K, O, D>, s: State<K, O, D>, step: Step<K, O>)
    requires Enabled(s, step)
    ensures |Apply(prog, s, step).active| <= |s.active| + if step.Start? then 1 else 0
    ensures step.Start? ==> |s.active| < 50
  {
    if step.Start? || step.Get? || step.Commit? { WorkersOfStep(prog, s, step); }
  }

  /** A start adds a worker, a failing read or a commit removes one, any other read keeps it. */
  lemma WorkersOfStep<K(!new), O(!new), D(!new)>(prog: Program<K, O, D>, s: State<K, O, D>, step: Step<K, O>)
    requires Enabled(s, step) && (step.Start? || step.Get? || step.Commit?)
    ensures var t := Apply(prog, s, step);
            |t.active| == |s.active| +
              if step.Start? then 1 else if step.Commit? || step.fails then -1 else 0
  {
    WorkerKeys(prog, s, step);
  }

  lemma WorkerKeys<K(!new), O(!new), D(!new)>(prog: Program<K, O, D>, s: State<K, O, D>, step: Step<K, O>)
    requires Enabled(s, step) && (step.Start? || step.Get? || step.Commit?)
    ensures var t, was := Apply(prog, s, step), s.active.Keys;
            t.active.Keys ==
              if step.Start? then was + {step.key} else if step.Commit? || step.fails then was - {step.key} else was
    ensures step.key in s.active <==> !step.Start?
  {
  }

  /** A re-check is never put off: until it fires, or is absorbed by a queued key, it is due no later than before. */
  lemma RecheckIsNotPutOff<K(!new), O(!new), D(!new)>(prog: Program<K, O, D>, s: State<K, O, D>, step: Step<K, O>, k: K)
    requires Enabled(s, step) && k in s.timers && step != Fire(k) && step != Absorb(k)
    ensures k in Apply(prog, s, step).timers && Apply(prog, s, step).timers[k] <= s.timers[k]
  {
  }

  // ---------------------------------------------------------------- staleness

  /** Something will make the reconciler look at `k` again. */
  ghost predicate RecheckDue<K, O, D>(s: State<K, O, D>, k: K) {
    k in s.timers || k in s.dirty || k in s.active || k in s.retries
  }

  /** With a positive resync period, committed data always has a re-check pending. */
  lemma {:induction false} RecheckIsPending<K(!new), O(!new), D(!new)>(
      prog: Program<K, O, D>, run: Run<K, O, D>, i: nat, k: K)
    requires IsRun(prog, run) && prog.resync > 0 && i < |run.states| && k in run.states[i].own
    ensures RecheckDue(run.states[i], k)
  {
    assert i > 0;
    assert IsStep(prog, run, i - 1);
    if k in run.states[i - 1].own { RecheckIsPending(prog, run, i - 1, k); }
  }

  /** As far as `k` is concerned, time passes only when it is not due, queued or in flight, and no read fails. */
  ghost predicate Prompt<K(!new), O(!new), D(!new)>(run: Run<K, O, D>, k: K) {
    && |run.steps| < |run.states|
    && forall i | 0 <= i < |run.steps| :: PromptStep(run.states[i], run.steps[i], k)
  }

  ghost predicate PromptStep<K, O, D>(s: State<K, O, D>, step: Step<K, O>, k: K) {
    && (step.Tick? ==> k !in s.dirty && k !in s.active && (k in s.timers ==> s.timers[k] > s.now))
    && step != Get(k, true)
  }

  /** Besides, none of the reconciles of `k` ends in an error that leaves the store alone. */
  ghost predicate Punctual<K(!new), O(!new), D(!new)>(run: Run<K, O, D>, k: K) {
    && |run.steps| < |run.states|
    && forall i | 0 <= i < |run.steps| :: PunctualStep(run.states[i], run.steps[i], k)
  }

  ghost predicate PunctualStep<K, O, D>(s: State<K, O, D>, step: Step<K, O>, k: K) {
    && PromptStep(s, step, k)
    && (step == Commit(k) && k in s.active && s.active[k].Decided? ==> !s.active[k].outcome.Fail?)
  }

  /** That is so if no object ever cached under `k` makes the program fail by itself. */
  lemma PromptIsPunctual<K(!new), O(!new), D(!new)>(prog: Program<K, O, D>, run: Run<K, O, D>, k: K)
    requires IsRun(prog, run) && Prompt(run, k)
    requires forall i, seen | 0 <= i < |run.states| && k in run.states[i].objs ::
               prog.next(k, run.states[i].objs[k], seen) != Done(Fail)
    ensures Punctual(run, k)
  {
    forall i | 0 <= i < |run.steps| ensures PunctualStep(run.states[i], run.steps[i], k) {
      var s := run.states[i];
      assert PromptStep(s, run.steps[i], k);
      if run.steps[i] == Commit(k) && k in s.active && s.active[k].Decided? {
        var local := s.active[k];
        if local.snapshot.None? {
          AbsentObjectDrops(prog, run, i, k);
        } else {
          var start, gets := Observe(prog, run, i, k, local.snapshot.value, local.seen);
        }
      }
    }
  }

  lemma {:induction false} NoTimePassesWhileBusy<K(!new), O(!new), D(!new)>(
      prog: Program<K, O, D>, run: Run<K, O, D>, k: K, from: nat, to: nat)
    requires IsRun(prog, run) && Punctual(run, k) && from <= to && BusyFrom(run, k, from, to)
    ensures run.states[from].now == run.states[to].now
  {
    if from < to {
      NoTimePassesWhileBusy(prog, run, k, from, to - 1);
      assert IsStep(prog, run, to - 1) && PunctualStep(run.states[to - 1], run.steps[to - 1], k);
      assert k in run.states[to - 1].active;
    }
  }

  lemma {:induction false} TimeOnlyPasses<K(!new), O(!new), D(!new)>(
      prog: Program<K, O, D>, run: Run<K, O, D>, from: nat, to: nat)
    requires IsRun(prog, run) && from <= to < |run.states|
    ensures run.states[from].now <= run.states[to].now
  {
    if from < to {
      TimeOnlyPasses(prog, run, from, to - 1);
      assert IsStep(prog, run, to - 1);
    }
  }

  /** Nothing but its own commit touches what `k` has committed, and only time passing makes it older. */
  lemma QuietStep<K(!new), O(!new), D(!new)>(prog: Program<K, O, D>, run: Run<K, O, D>, i: nat, k: K)
    requires IsRun(prog, run) && i < |run.steps| && run.steps[i] != Commit(k) && run.steps[i] != Get(k, true)
    ensures var s, t := run.states[i], run.states[i + 1];
            && Lookup(t.own, k) == Lookup(s.own, k)
            && (k in t.timers ==> Lookup(t.timers, k) == Lookup(s.timers, k))
            && (k in s.timers || k in s.dirty || k in s.active ==> k in t.timers || k in t.dirty || k in t.active)
            && t.now == if run.steps[i].Tick? then s.now + 1 else s.now
  {
    assert IsStep(prog, run, i);
  }

  lemma CommitStep<K(!new), O(!new), D(!new)>(prog: Program<K, O, D>, run: Run<K, O, D>, i: nat, k: K)
    requires IsRun(prog, run) && i < |run.steps| && run.steps[i] == Commit(k)
    ensures var s, t := run.states[i], run.states[i + 1];
            && k in s.active && s.active[k].Decided? && t.now == s.now
            && match s.active[k].outcome
               case Keep(d) =>
                 && Lookup(t.own, k) == Some(d)
                 && (prog.resync > 0 ==> k in t.timers && t.timers[k] <= s.now + prog.resync)
               case Fail => Lookup(t.own, k) == Lookup(s.own, k)
               case _ => k !in t.own
  {
    assert IsStep(prog, run, i);
  }

  /** Bounded staleness: committed data was read and fully validated at most `resync` ago. */
  lemma {:induction false} CommittedDataIsRecent<K(!new), O(!new), D(!new)>(
      prog: Program<K, O, D>, run: Run<K, O, D>, i: nat, k: K) returns (e: Evidence<O>)
    requires IsRun(prog, run) && Punctual(run, k) && prog.resync > 0 && i < |run.states| && k in run.states[i].own
    ensures Witness(prog, run, k, run.states[i].own[k], e) && e.commit < i
    ensures run.states[i].now <= run.states[e.start].now + prog.resync
    ensures k in run.states[i].timers ==> run.states[i].timers[k] <= run.states[e.start].now + prog.resync
    ensures k in run.states[i].timers || k in run.states[i].dirty || k in run.states[i].active
  {
    assert i > 0;
    assert PunctualStep(run.states[i - 1], run.steps[i - 1], k);
    var before := run.states[i - 1];
    if run.steps[i - 1] == Commit(k) {
      CommitStep(prog, run, i - 1, k);
      e := CommitHasWitness(prog, run, i - 1, k, before.active[k].outcome.data);
      NoTimePassesWhileBusy(prog, run, k, e.start, i - 1);
    } else {
      QuietStep(prog, run, i - 1, k);
      e := CommittedDataIsRecent(prog, run, i - 1, k);
    }
  }
}
