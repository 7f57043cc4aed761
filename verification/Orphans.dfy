/** The run in which the CA endpoint serves a bundle for ever: re-pointed, removed, never taken out of the store. */
module Orphans {
  import opened Wrappers
  import opened Cluster
  import opened Controller
  import opened Certificates
  import opened Provenance
  import opened Draining
  import opened Scenarios
  import opened CertificateSystem
  import CertificateIndex
  import CertificateReconciler
  import Refinement
  import Keys

  // ---------------------------------------------------------------- the index as a run grows

  ghost function IndexOf(run: CertRun): CertificateIndex.Index
    requires |run.steps| < |run.states|
  {
    IndexAt(run, |run.steps|)
  }

  lemma {:induction false} EffectsOfPrefix(run: CertRun, longer: CertRun, i: nat)
    requires i <= |run.steps| < |run.states| && |longer.steps| < |longer.states|
    requires run.states <= longer.states && run.steps <= longer.steps
    ensures Effects(longer, i) == Effects(run, i)
  {
    if i > 0 { EffectsOfPrefix(run, longer, i - 1); }
  }

  lemma {:induction false} QuietIndex(run: CertRun, i: nat, j: nat)
    requires i <= j <= |run.steps| < |run.states| && forall t | i <= t < j :: !run.steps[t].Commit?
    ensures IndexAt(run, j) == IndexAt(run, i)
  {
    if i < j {
      QuietIndex(run, i, j - 1);
      assert !run.steps[j - 1].Commit?;
      IndexStep(run, j - 1);
    }
  }

  /** A whole reconcile leaves the index as its outcome says. */
  lemma IndexAfterReconcile(
      prog: CertProgram, run: CertRun, longer: CertRun, req: Request, local: Local<ConfigMap, Entry>)
    requires Closes(prog, run, longer, req, local)
    ensures IndexOf(longer) == CertificateReconciler.After(IndexOf(run), Keys.MappingKey(req), local.outcome)
  {
    var last := |longer.steps| - 1;
    EffectsOfPrefix(run, longer, |run.steps|);
    QuietIndex(longer, |run.steps|, last);
    assert IsStep(prog, longer, last);
    Refinement.CertificateCommitIsMethodEffect(prog, longer, last, req);
  }

  // ---------------------------------------------------------------- a run that grows step by step

  /** So far nothing failed, time passed only while nothing was due at all, and then no configmap was left. */
  ghost predicate Drifting(libs: Libs, resync: nat, run: CertRun) {
    && IsRun(Reconciler(libs, resync), run) && (forall k: Request :: Prompt(run, k))
    && forall j | 0 <= j < |run.states| :: Undamaged(run.states[j])
  }

  ghost predicate Undamaged(s: CertState) {
    s.retries == {} && (s.now > 0 ==> s.objs == map[])
  }

  ghost predicate Calm(s: CertState) {
    s.dirty == {} && s.active == map[] && s.timers == map[]
  }

  lemma Grow(libs: Libs, resync: nat, run: CertRun, step: Step<Request, ConfigMap>) returns (longer: CertRun)
    requires Drifting(libs, resync, run) && Enabled(Last(run), step)
    requires !step.Get? && !step.Commit? && (step.Tick? ==> Calm(Last(run)))
    requires Undamaged(Apply(Reconciler(libs, resync), Last(run), step))
    ensures Drifting(libs, resync, longer) && Last(longer) == Apply(Reconciler(libs, resync), Last(run), step)
    ensures IndexOf(longer) == IndexOf(run)
  {
    longer := Extend(Reconciler(libs, resync), run, step);
    forall k: Request ensures Prompt(longer, k) { PromptExtends(run, longer, k); }
    EffectsOfPrefix(run, longer, |run.steps|);
    QuietIndex(longer, |run.steps|, |longer.steps|);
  }

  lemma ReconcileKeepsDrifting(
      libs: Libs, resync: nat, run: CertRun, longer: CertRun, req: Request, local: Local<ConfigMap, Entry>)
    requires Drifting(libs, resync, run) && Closes(Reconciler(libs, resync), run, longer, req, local)
    requires local.outcome.Keep? || local.outcome.Drop?
    ensures Drifting(libs, resync, longer)
  {
    forall k: Request ensures Prompt(longer, k) { ReconcileIsPrompt(Reconciler(libs, resync), run, longer, req, k); }
    UncommittedKeepsRetries(libs, resync, run, longer, req, |longer.steps| - 1);
    forall j | 0 <= j < |longer.states| ensures Undamaged(longer.states[j]) {
      if j < |longer.steps| {
        UncommittedKeepsRetries(libs, resync, run, longer, req, j);
        assert j < |run.states| ==> Undamaged(run.states[j]);
      }
      assert Undamaged(Last(run));
    }
  }

  lemma {:induction false} UncommittedKeepsRetries(
      libs: Libs, resync: nat, run: CertRun, longer: CertRun, req: Request, j: nat)
    requires Drifting(libs, resync, run) && Reconciles(Reconciler(libs, resync), run, longer, req) && j < |longer.steps|
    requires forall i | |run.steps| <= i < |longer.steps| - 1 :: !longer.steps[i].Commit?
    ensures longer.states[j].retries == {}
  {
    if j < |run.states| {
      assert Undamaged(run.states[j]);
    } else {
      UncommittedKeepsRetries(libs, resync, run, longer, req, j - 1);
      assert IsStep(Reconciler(libs, resync), longer, j - 1) && Undisturbed(longer.steps[j - 1], req);
    }
  }

  /** One whole reconcile of a queued configmap that is in order. */
  lemma Publish(
      libs: Libs, resync: nat, run: CertRun, req: Request, cm: ConfigMap, entry: Entry) returns (longer: CertRun)
    requires Drifting(libs, resync, run) && CanStart(Last(run), req) && Lookup(Last(run).objs, req) == Some(cm)
    requires Decide(libs, Last(run).world, req, Some(cm)) == Keep(entry)
    ensures Drifting(libs, resync, longer)
    ensures Last(longer) == Settle(Reconciler(libs, resync), Last(run), req, Keep(entry))
    ensures IndexOf(longer) ==
        CertificateIndex.CreateMapping(IndexOf(run), Keys.MappingKey(req), entry.dataKey, entry.payload)
  {
    var prog, w := Reconciler(libs, resync), Last(run).world;
    ReconcilerDecides(libs, resync, w);
    var local;
    longer, local := Process(prog, MAX_READS, Verdict(libs, w), run, req, cm);
    ReconcileKeepsDrifting(libs, resync, run, longer, req, local);
    CommitSettles(prog, Last(run), req, local);
    IndexAfterReconcile(prog, run, longer, req, local);
  }

  /** One whole reconcile of a queued configmap that is gone. */
  lemma Withdraw(libs: Libs, resync: nat, run: CertRun, req: Request) returns (longer: CertRun)
    requires Drifting(libs, resync, run) && CanStart(Last(run), req) && req !in Last(run).objs
    ensures Drifting(libs, resync, longer)
    ensures Last(longer) == Settle(Reconciler(libs, resync), Last(run), req, Drop)
    ensures IndexOf(longer) == CertificateIndex.DeleteMapping(IndexOf(run), Keys.MappingKey(req))
  {
    var prog, local := Reconciler(libs, resync), Begun;
    longer, local := ProcessAbsent(prog, run, req);
    ReconcileKeepsDrifting(libs, resync, run, longer, req, local);
    CommitSettles(prog, Last(run), req, local);
    IndexAfterReconcile(prog, run, longer, req, local);
  }

  // ---------------------------------------------------------------- published, re-pointed, removed

  /** Nothing but one configmap, committed at time 0, and its resync timer. */
  function Published(w: World, req: Request, cm: ConfigMap, resync: nat, entry: Entry): CertState {
    Empty(w).(objs := map[req := cm], timers := map[req := resync], own := map[req := entry])
  }

  function Empty(w: World): CertState {
    State<Request, ConfigMap, Entry>.State(map[], w, [], {}, map[], map[], {}, map[], 0)
  }

  lemma PublishFirst(
      libs: Libs, resync: nat, w: World, req: Request, cm: ConfigMap, entry: Entry) returns (run: CertRun)
    requires Decide(libs, w, req, Some(cm)) == Keep(entry) && resync > 0
    ensures Drifting(libs, resync, run)
    ensures Last(run) == Published(w, req, cm, resync, entry)
    ensures IndexOf(run) ==
        CertificateIndex.Index(map[Keys.MappingKey(req) := entry.dataKey], map[entry.dataKey := entry.payload])
  {
    run := Run([Empty(w)], []);
    assert IndexOf(run) == CertificateIndex.EMPTY;
    run := Grow(libs, resync, run, Change(req, Some(cm)));
    run := Grow(libs, resync, run, Deliver);
    run := Publish(libs, resync, run, req, cm, entry);
  }

  /** Nothing is outstanding but timers, and no time has passed yet. */
  ghost predicate AtRest(s: CertState) {
    s.events == [] && s.dirty == {} && s.active == map[] && s.retries == {} && s.now == 0
  }

  /** A relevant configmap changes or goes, and its name is queued. */
  lemma Notify(libs: Libs, resync: nat, run: CertRun, req: Request, to: Option<ConfigMap>) returns (longer: CertRun)
    requires Drifting(libs, resync, run) && AtRest(Last(run))
    requires req in Last(run).objs && IsRelevantConfigMap(Last(run).objs[req])
    ensures Drifting(libs, resync, longer) && IndexOf(longer) == IndexOf(run)
    ensures Last(longer) == Last(run).(objs := Put(Last(run).objs, req, to), dirty := {req})
  {
    assert Undamaged(Last(run));
    longer := Grow(libs, resync, run, Change(req, to));
    assert Last(longer).events[1..] == [] && Last(longer).dirty + {req} == {req};
    longer := DeliverEvent(libs, resync, longer, EventOf(req, Some(Last(run).objs[req]), to));
  }

  lemma DeliverEvent(libs: Libs, resync: nat, run: CertRun, event: Event<Request, ConfigMap>) returns (longer: CertRun)
    requires Drifting(libs, resync, run) && Last(run).events == [event] && ConfigMapPredicate(event)
    ensures Drifting(libs, resync, longer) && IndexOf(longer) == IndexOf(run)
    ensures Last(longer) == Last(run).(events := [], dirty := Last(run).dirty + {event.key})
  {
    assert Undamaged(Last(run));
    longer := Grow(libs, resync, run, Deliver);
  }

  lemma Repoint(
      libs: Libs, resync: nat, run: CertRun, req: Request, cm: ConfigMap, entry: Entry) returns (longer: CertRun)
    requires Drifting(libs, resync, run) && AtRest(Last(run)) && resync > 0
    requires Decide(libs, Last(run).world, req, Some(cm)) == Keep(entry)
    requires Last(run).timers == map[req := resync]
    requires req in Last(run).objs && IsRelevantConfigMap(Last(run).objs[req])
    ensures Drifting(libs, resync, longer)
    ensures Last(longer) ==
        Last(run).(objs := Last(run).objs[req := cm], own := Last(run).own[req := entry])
    ensures IndexOf(longer) ==
        CertificateIndex.CreateMapping(IndexOf(run), Keys.MappingKey(req), entry.dataKey, entry.payload)
  {
    longer := Notify(libs, resync, run, req, Some(cm));
    longer := Publish(libs, resync, longer, req, cm, entry);
    assert Schedule(Last(run).timers, req, resync) == Last(run).timers;
  }

  lemma AbsorbTimer(libs: Libs, resync: nat, run: CertRun, req: Request) returns (longer: CertRun)
    requires Drifting(libs, resync, run) && req in Last(run).dirty && req in Last(run).timers
    ensures Drifting(libs, resync, longer) && IndexOf(longer) == IndexOf(run)
    ensures Last(longer) == Last(run).(timers := Last(run).timers - {req})
  {
    assert Undamaged(Last(run));
    longer := Grow(libs, resync, run, Absorb(req));
  }

  lemma Delete(libs: Libs, resync: nat, run: CertRun, req: Request, cm: ConfigMap) returns (longer: CertRun)
    requires Drifting(libs, resync, run) && AtRest(Last(run)) && IsRelevantConfigMap(cm)
    requires Last(run).timers.Keys == {req} && Last(run).objs == map[req := cm] && Last(run).own.Keys == {req}
    ensures Drifting(libs, resync, longer)
    ensures Last(longer) == Last(run).(objs := map[], timers := map[], own := map[])
    ensures IndexOf(longer) == CertificateIndex.DeleteMapping(IndexOf(run), Keys.MappingKey(req))
  {
    longer := Notify(libs, resync, run, req, None);
    longer := AbsorbTimer(libs, resync, longer, req);
    longer := Withdraw(libs, resync, longer, req);
    assert Last(run).objs - {req} == map[] && Last(run).timers - {req} == map[] && Last(run).own - {req} == map[];
  }

  lemma {:induction false} Wait(libs: Libs, resync: nat, run: CertRun, time: nat) returns (longer: CertRun)
    requires Drifting(libs, resync, run) && Calm(Last(run)) && Last(run).objs == map[]
    ensures Drifting(libs, resync, longer) && Last(longer) == Last(run).(now := Last(run).now + time)
    ensures IndexOf(longer) == IndexOf(run)
  {
    if time == 0 {
      longer := run;
    } else {
      longer := Wait(libs, resync, run, time - 1);
      assert Undamaged(Last(longer));
      longer := Grow(libs, resync, longer, Tick);
    }
  }

  /**
   * Whenever a valid configmap can be re-pointed to another shoot, there is a run, prompt for every configmap
   * and without a single error, in which its first bundle is served at any later time, although the configmap
   * has been deleted since and none is left: no bundle stored under that key is recent.
   */
  lemma OrphanOutlivesPeriod(
      libs: Libs, resync: nat, w: World, req: Request, cm1: ConfigMap, cm2: ConfigMap, p: string, u1: string,
      u2: string, age: nat)
      returns (run: CertRun, i: nat)
    requires Valid(libs, w, req, cm1, p, u1) && libs.marshalBundle(cm1.data[CA_KEY]).Some?
    requires Valid(libs, w, req, cm2, p, u2) && libs.marshalBundle(cm2.data[CA_KEY]).Some?
    requires u1 != u2 && 0 < resync < age
    ensures IsRun(Reconciler(libs, resync), run) && i < |run.states| && forall k: Request :: Prompt(run, k)
    ensures forall j | 0 <= j < |run.states| :: run.states[j].retries == {}
    ensures run.states[i].now == age && run.states[i].objs == map[] && IndexAt(run, i).mapping == map[]
    ensures IndexAt(run, i).store == map[Keys.Join(p, u1) := libs.marshalBundle(cm1.data[CA_KEY]).value]
    ensures !exists owner, e :: RecentBy(libs, resync, run, i, Keys.Join(p, u1), owner, e)
  {
    var e1 := Entry(Keys.Join(p, u1), libs.marshalBundle(cm1.data[CA_KEY]).value);
    var e2 := Entry(Keys.Join(p, u2), libs.marshalBundle(cm2.data[CA_KEY]).value);
    DecideKeepsExactlyValid(libs, w, req, cm1, e1);
    DecideKeepsExactlyValid(libs, w, req, cm2, e2);
    JoinedKeysDiffer(p, u1, u2);
    run := LeaveOrphan(libs, resync, w, req, cm1, e1, cm2, e2);
    run := Wait(libs, resync, run, age);
    i := |run.steps|;
    assert IndexAt(run, i) == CertificateIndex.Index(map[], map[e1.dataKey := e1.payload]);
    NothingRecent(libs, resync, run, i, e1.dataKey);
    forall j | 0 <= j < |run.states| ensures run.states[j].retries == {} { assert Undamaged(run.states[j]); }
  }

  /** The configmap is published, re-pointed and deleted, all at time 0; its first entry stays in the store. */
  lemma LeaveOrphan(
      libs: Libs, resync: nat, w: World, req: Request, cm1: ConfigMap, e1: Entry, cm2: ConfigMap, e2: Entry)
      returns (run: CertRun)
    requires Decide(libs, w, req, Some(cm1)) == Keep(e1) && Decide(libs, w, req, Some(cm2)) == Keep(e2)
    requires IsRelevantConfigMap(cm1) && IsRelevantConfigMap(cm2) && e1.dataKey != e2.dataKey && resync > 0
    ensures Drifting(libs, resync, run) && Last(run) == Empty(w)
    ensures IndexOf(run) == CertificateIndex.Index(map[], map[e1.dataKey := e1.payload])
  {
    run := PublishFirst(libs, resync, w, req, cm1, e1);
    run := Repoint(libs, resync, run, req, cm2, e2);
    run := Delete(libs, resync, run, req, cm2);
    OrphanLeft(Keys.MappingKey(req), e1, e2);
  }

  lemma OrphanLeft(m: string, e1: Entry, e2: Entry)
    requires e1.dataKey != e2.dataKey
    ensures var ix := CertificateIndex.Index(map[m := e1.dataKey], map[e1.dataKey := e1.payload]);
            CertificateIndex.DeleteMapping(CertificateIndex.CreateMapping(ix, m, e2.dataKey, e2.payload), m) ==
              CertificateIndex.Index(map[], map[e1.dataKey := e1.payload])
  {
    var ix := CertificateIndex.Index(map[m := e1.dataKey], map[e1.dataKey := e1.payload]);
    var repointed := CertificateIndex.CreateMapping(ix, m, e2.dataKey, e2.payload);
    assert repointed.mapping - {m} == map[];
    assert repointed.store - {e2.dataKey} == map[e1.dataKey := e1.payload];
  }

  /** With no configmap cached since time 0, nothing read later than that vouches for what is stored. */
  lemma NothingRecent(libs: Libs, resync: nat, run: CertRun, i: nat, dataKey: string)
    requires Drifting(libs, resync, run) && i < |run.states| && dataKey in IndexAt(run, i).store
    requires run.states[i].now > resync
    ensures !exists owner, e :: RecentBy(libs, resync, run, i, dataKey, owner, e)
  {
    forall owner, e ensures !RecentBy(libs, resync, run, i, dataKey, owner, e) {
      assert e.start < |run.states| ==> Undamaged(run.states[e.start]);
    }
  }

  lemma JoinedKeysDiffer(p: string, u1: string, u2: string)
    requires u1 != u2
    ensures Keys.Join(p, u1) != Keys.Join(p, u2)
  {
    assert Keys.Join(p, u1)[|p| + 2..] == u1 && Keys.Join(p, u2)[|p| + 2..] == u2;
  }
}
