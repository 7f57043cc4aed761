/** What the CA reconciler guarantees over every run of the controller, index and store included. */
module CertificateSystem {
  import opened Wrappers
  import opened Cluster
  import opened Controller
  import opened Certificates
  import opened Provenance
  import opened Draining
  import CertificateIndex
  import Handler
  import Keys

  type CertState = State<Request, ConfigMap, Entry>
  type CertRun = Run<Request, ConfigMap, Entry>

  // ---------------------------------------------------------------- the index along a run

  /** The index operation a step performs, if any. */
  function EffectOf(s: CertState, step: Step<Request, ConfigMap>): seq<CertificateIndex.Op> {
    if !step.Commit? || step.key !in s.active || !s.active[step.key].Decided? then []
    else
      var mapKey := Keys.MappingKey(step.key);
      match s.active[step.key].outcome
      case Keep(entry) => [CertificateIndex.Create(mapKey, entry.dataKey, entry.payload)]
      case Drop => [CertificateIndex.Delete(mapKey)]
      case DropAndFail => [CertificateIndex.Delete(mapKey)]
      case Fail => []
  }

  ghost function Effects(run: CertRun, i: nat): seq<CertificateIndex.Op>
    requires i <= |run.steps| < |run.states|
  {
    if i == 0 then [] else Effects(run, i - 1) + EffectOf(run.states[i - 1], run.steps[i - 1])
  }

  ghost function IndexAt(run: CertRun, i: nat): CertificateIndex.Index
    requires i <= |run.steps| < |run.states|
  {
    CertificateIndex.DoAll(Effects(run, i))
  }

  lemma IndexStep(run: CertRun, i: nat)
    requires i < |run.steps| < |run.states|
    ensures var effect := EffectOf(run.states[i], run.steps[i]);
            IndexAt(run, i + 1) ==
              if effect == [] then IndexAt(run, i) else CertificateIndex.Do(IndexAt(run, i), effect[0])
  {
    var ops := Effects(run, i + 1);
    if EffectOf(run.states[i], run.steps[i]) == [] { assert ops == Effects(run, i); }
    else { assert ops[..|ops| - 1] == Effects(run, i); }
  }

  type CertProgram = Program<Request, ConfigMap, Entry>

  /** `prog` is the reconciler, behind whatever filter. */
  ghost predicate Runs(libs: Libs, prog: CertProgram) {
    prog.next == Reconciler(libs, prog.resync).next
  }

  /** What a step does to the index and to the commits; None is nothing. */
  lemma EffectStep(prog: CertProgram, run: CertRun, i: nat) returns (effect: Option<CertificateIndex.Op>, k: Request)
    requires IsRun(prog, run) && i < |run.steps|
    ensures var ix, ix', own, own' := IndexAt(run, i), IndexAt(run, i + 1), run.states[i].own, run.states[i + 1].own;
            if effect == None then ix' == ix && own' == own
            else
              && run.steps[i] == Commit(k) && k in run.states[i].active && run.states[i].active[k].Decided?
              && effect.value.mapKey == Keys.MappingKey(k) && ix' == CertificateIndex.Do(ix, effect.value)
              && if effect.value.Create? then
                   var entry := Entry(effect.value.dataKey, effect.value.data);
                   run.states[i].active[k].outcome == Keep(entry) && own' == own[k := entry]
                 else own' == own - {k}
    ensures forall l, d :: Keeps(run, i, l, d) ==>
        effect.Some? && effect.value == CertificateIndex.Create(Keys.MappingKey(l), d.dataKey, d.payload)
  {
    assert IsStep(prog, run, i);
    IndexStep(run, i);
    var effects := EffectOf(run.states[i], run.steps[i]);
    if effects == [] { effect, k := None, NamespacedName("", ""); }
    else { effect, k := Some(effects[0]), run.steps[i].key; }
  }

  /** `storeMapping` says, for every configmap, which data key it last committed, and nothing else. */
  ghost predicate MapsOwners(mapping: map<string, string>, own: map<Request, Entry>) {
    && (forall k: Request :: Lookup(mapping, Keys.MappingKey(k)) == if k in own then Some(own[k].dataKey) else None)
    && forall m | m in mapping :: exists k: Request :: k in own && Keys.MappingKey(k) == m
  }

  lemma MapsOwnersAfterKeep(mapping: map<string, string>, own: map<Request, Entry>, k: Request, entry: Entry)
    requires MapsOwners(mapping, own)
    ensures MapsOwners(mapping[Keys.MappingKey(k) := entry.dataKey], own[k := entry])
  {
    var mapping', own' := mapping[Keys.MappingKey(k) := entry.dataKey], own[k := entry];
    forall l: Request
      ensures Lookup(mapping', Keys.MappingKey(l)) == if l in own' then Some(own'[l].dataKey) else None
    {
      if Keys.MappingKey(l) == Keys.MappingKey(k) { Keys.MappingKeyInjective(l, k); }
    }
    forall m | m in mapping' ensures exists l: Request :: l in own' && Keys.MappingKey(l) == m {
      if m == Keys.MappingKey(k) {
        assert k in own';
      } else {
        var l: Request :| l in own && Keys.MappingKey(l) == m;
        assert l in own';
      }
    }
  }

  lemma MapsOwnersAfterDrop(mapping: map<string, string>, own: map<Request, Entry>, k: Request)
    requires MapsOwners(mapping, own)
    ensures MapsOwners(mapping - {Keys.MappingKey(k)}, own - {k})
  {
    var mapping', own' := mapping - {Keys.MappingKey(k)}, own - {k};
    forall l: Request
      ensures Lookup(mapping', Keys.MappingKey(l)) == if l in own' then Some(own'[l].dataKey) else None
    {
      if Keys.MappingKey(l) == Keys.MappingKey(k) { Keys.MappingKeyInjective(l, k); }
    }
    forall m | m in mapping' ensures exists l: Request :: l in own' && Keys.MappingKey(l) == m {
      var l: Request :| l in own && Keys.MappingKey(l) == m;
      assert l in own';
    }
  }

  /** In every run, whatever happens: the mapping follows the commits. */
  lemma {:induction false} MappingFollowsCommits(libs: Libs, prog: CertProgram, run: CertRun, i: nat)
    requires IsRun(prog, run) && Runs(libs, prog) && i < |run.states|
    ensures MapsOwners(IndexAt(run, i).mapping, run.states[i].own)
  {
    if i > 0 {
      MappingFollowsCommits(libs, prog, run, i - 1);
      var effect, k := EffectStep(prog, run, i - 1);
      var mapping, own := IndexAt(run, i - 1).mapping, run.states[i - 1].own;
      if effect.Some? {
        if effect.value.Create? {
          MapsOwnersAfterKeep(mapping, own, k, Entry(effect.value.dataKey, effect.value.data));
        } else {
          MapsOwnersAfterDrop(mapping, own, k);
        }
      }
    }
  }

  /** No configmap is re-pointed, and no two mapped configmaps share a data key. */
  ghost predicate Exclusive(run: CertRun) {
    && |run.steps| < |run.states|
    && forall i | 0 <= i < |run.steps| :: ExclusiveStep(run.states[i], run.steps[i])
  }

  ghost predicate ExclusiveStep(s: CertState, step: Step<Request, ConfigMap>) {
    step.Commit? && step.key in s.active && s.active[step.key].Decided? && s.active[step.key].outcome.Keep? ==>
      OwnGuard(s.own, step.key, s.active[step.key].outcome.data.dataKey)
  }

  /** The store holds the payload of every configmap mapped, under its data key. */
  ghost predicate StoresOwners(store: map<string, Bytes>, own: map<Request, Entry>) {
    forall k: Request | k in own :: Lookup(store, own[k].dataKey) == Some(own[k].payload)
  }

  lemma {:induction false} KeptKeysAreJoined(libs: Libs, prog: CertProgram, run: CertRun, i: nat, k: Request)
    requires IsRun(prog, run) && Runs(libs, prog) && i < |run.states| && k in run.states[i].active
    requires run.states[i].active[k].Decided? && run.states[i].active[k].outcome.Keep?
    ensures run.states[i].active[k].outcome.data.dataKey != ""
  {
    assert i > 0;
    WorkerStep(prog, run, i - 1, k);
    if run.steps[i - 1] != Get(k, false) { KeptKeysAreJoined(libs, prog, run, i - 1, k); }
  }

  /** The index is consistent and holds what `own` says, payloads included. */
  ghost predicate Faithful(ix: CertificateIndex.Index, own: map<Request, Entry>) {
    CertificateIndex.Consistent(ix) && MapsOwners(ix.mapping, own) && StoresOwners(ix.store, own)
  }

  ghost predicate OwnGuard(own: map<Request, Entry>, k: Request, dataKey: string) {
    && (k in own ==> own[k].dataKey == dataKey)
    && forall l | l in own && l != k :: own[l].dataKey != dataKey
  }

  lemma OwnGuardGuards(ix: CertificateIndex.Index, own: map<Request, Entry>, k: Request, dataKey: string)
    requires MapsOwners(ix.mapping, own) && OwnGuard(own, k, dataKey)
    ensures CertificateIndex.Guard(ix, Keys.MappingKey(k), dataKey)
  {
  }

  lemma FaithfulAfterKeep(ix: CertificateIndex.Index, own: map<Request, Entry>, k: Request, entry: Entry)
    requires Faithful(ix, own) && OwnGuard(own, k, entry.dataKey) && entry.dataKey != ""
    ensures Faithful(CertificateIndex.CreateMapping(ix, Keys.MappingKey(k), entry.dataKey, entry.payload),
        own[k := entry])
  {
    OwnGuardGuards(ix, own, k, entry.dataKey);
    CertificateIndex.CreateKeepsIff(ix, Keys.MappingKey(k), entry.dataKey, entry.payload);
    MapsOwnersAfterKeep(ix.mapping, own, k, entry);
  }

  lemma FaithfulAfterDrop(ix: CertificateIndex.Index, own: map<Request, Entry>, k: Request)
    requires Faithful(ix, own)
    ensures Faithful(CertificateIndex.DeleteMapping(ix, Keys.MappingKey(k)), own - {k})
  {
    CertificateIndex.DeleteKeeps(ix, Keys.MappingKey(k));
    MapsOwnersAfterDrop(ix.mapping, own, k);
    forall l: Request | l in own && l != k
      ensures Lookup(CertificateIndex.DeleteMapping(ix, Keys.MappingKey(k)).store, own[l].dataKey) ==
          Some(own[l].payload)
    {
      OtherStaysStored(ix, own, k, l);
    }
  }

  /** What one configmap's removal takes from the store is not another's. */
  lemma OtherStaysStored(ix: CertificateIndex.Index, own: map<Request, Entry>, k: Request, l: Request)
    requires Faithful(ix, own) && l in own && l != k
    ensures Lookup(CertificateIndex.DeleteMapping(ix, Keys.MappingKey(k)).store, own[l].dataKey) == Some(own[l].payload)
  {
    if Keys.MappingKey(l) == Keys.MappingKey(k) { Keys.MappingKeyInjective(l, k); }
    assert Lookup(ix.mapping, Keys.MappingKey(l)) == Some(own[l].dataKey);
    assert own[l].dataKey in ix.mapping.Values && own[l].dataKey != "";
  }

  /** Index invariant: in an exclusive run, mapping and store correspond one to one, payloads included. */
  lemma IndexIsFaithful(libs: Libs, prog: CertProgram, run: CertRun, i: nat)
    requires IsRun(prog, run) && Runs(libs, prog) && Exclusive(run) && i < |run.states|
    ensures Faithful(IndexAt(run, i), run.states[i].own)
  {
    var ixs, owns := seq(i + 1, j requires 0 <= j <= i => IndexAt(run, j)),
        seq(i + 1, j requires 0 <= j <= i => run.states[j].own);
    assert ixs[0] == CertificateIndex.EMPTY && owns[0] == map[];
    forall j | 0 <= j < i ensures Effective(ixs[j], owns[j], ixs[j + 1], owns[j + 1]) {
      var effect, k := ExclusiveEffect(libs, prog, run, j);
      assert Effected(ixs[j], owns[j], k, effect, ixs[j + 1], owns[j + 1]);
    }
    EffectsKeepFaithful(ixs, owns, i);
  }

  /** One step of the index and the commits, by whichever worker. */
  ghost predicate Effective(
      ix: CertificateIndex.Index, own: map<Request, Entry>, ix': CertificateIndex.Index, own': map<Request, Entry>)
  {
    exists effect, k :: Effected(ix, own, k, effect, ix', own')
  }

  lemma {:induction false} EffectsKeepFaithful(ixs: seq<CertificateIndex.Index>, owns: seq<map<Request, Entry>>, i: nat)
    requires |ixs| == |owns| && i < |ixs| && ixs[0] == CertificateIndex.EMPTY && owns[0] == map[]
    requires forall j | 0 <= j < |ixs| - 1 :: Effective(ixs[j], owns[j], ixs[j + 1], owns[j + 1])
    ensures Faithful(ixs[i], owns[i])
  {
    if i > 0 {
      EffectsKeepFaithful(ixs, owns, i - 1);
      assert Effective(ixs[i - 1], owns[i - 1], ixs[i - 1 + 1], owns[i - 1 + 1]);
      var effect, k :| Effected(ixs[i - 1], owns[i - 1], k, effect, ixs[i], owns[i]);
      FaithfulStep(ixs[i - 1], owns[i - 1], k, effect, ixs[i], owns[i]);
    }
  }

  /** `effect`, by the worker of `k`, is what happened to index and commits; a create found its data key exclusive. */
  ghost predicate Effected(
    ix: CertificateIndex.Index, own: map<Request, Entry>, k: Request, effect: Option<CertificateIndex.Op>,
    ix': CertificateIndex.Index, own': map<Request, Entry>)
  {
    match effect
    case None => ix' == ix && own' == own
    case Some(op) =>
      && op.mapKey == Keys.MappingKey(k) && ix' == CertificateIndex.Do(ix, op)
      && if op.Delete? then own' == own - {k}
         else own' == own[k := Entry(op.dataKey, op.data)] && OwnGuard(own, k, op.dataKey) && op.dataKey != ""
  }

  lemma ExclusiveEffect(libs: Libs, prog: CertProgram, run: CertRun, i: nat)
    returns (effect: Option<CertificateIndex.Op>, k: Request)
    requires IsRun(prog, run) && Runs(libs, prog) && Exclusive(run) && i < |run.steps|
    ensures Effected(IndexAt(run, i), run.states[i].own, k, effect, IndexAt(run, i + 1), run.states[i + 1].own)
  {
    effect, k := EffectStep(prog, run, i);
    if effect.Some? && effect.value.Create? { ExclusiveCommit(libs, prog, run, i, k); }
  }

  lemma FaithfulStep(
    ix: CertificateIndex.Index, own: map<Request, Entry>, k: Request, effect: Option<CertificateIndex.Op>,
    ix': CertificateIndex.Index, own': map<Request, Entry>)
    requires Faithful(ix, own) && Effected(ix, own, k, effect, ix', own')
    ensures Faithful(ix', own')
  {
    match effect
    case None =>
    case Some(Create(_, dataKey, data)) => FaithfulAfterKeep(ix, own, k, Entry(dataKey, data));
    case Some(Delete(_)) => FaithfulAfterDrop(ix, own, k);
  }

  lemma ExclusiveCommit(libs: Libs, prog: CertProgram, run: CertRun, i: nat, k: Request)
    requires IsRun(prog, run) && Runs(libs, prog) && Exclusive(run) && i < |run.steps| && run.steps[i] == Commit(k)
    requires k in run.states[i].active && run.states[i].active[k].Decided? && run.states[i].active[k].outcome.Keep?
    ensures OwnGuard(run.states[i].own, k, run.states[i].active[k].outcome.data.dataKey)
    ensures run.states[i].active[k].outcome.data.dataKey != ""
  {
    assert ExclusiveStep(run.states[i], run.steps[i]);
    KeptKeysAreJoined(libs, prog, run, i, k);
  }

  /** Read back from the store: in an exclusive run it holds exactly what mapped configmaps committed. */
  lemma StoreHoldsExactlyOwned(libs: Libs, resync: nat, run: CertRun, i: nat, dataKey: string, payload: Bytes)
    requires IsRun(Reconciler(libs, resync), run) && Exclusive(run) && i < |run.states|
    ensures Lookup(IndexAt(run, i).store, dataKey) == Some(payload) <==>
              exists k: Request :: k in run.states[i].own && run.states[i].own[k] == Entry(dataKey, payload)
    ensures |IndexAt(run, i).store| == |IndexAt(run, i).mapping|
  {
    var ix, own := IndexAt(run, i), run.states[i].own;
    IndexIsFaithful(libs, Reconciler(libs, resync), run, i);
    CertificateIndex.ConsistentSizes(ix);
    if Lookup(ix.store, dataKey) == Some(payload) {
      var m :| m in ix.mapping && ix.mapping[m] == dataKey;
      var k: Request :| k in own && Keys.MappingKey(k) == m;
      assert own[k] == Entry(dataKey, payload);
    }
  }

  // ---------------------------------------------------------------- coherence

  /** A committed entry is that of the current configmap, which is public and update-restricted. */
  ghost predicate Mirrors(libs: Libs, cm: Option<ConfigMap>, entry: Option<Entry>) {
    entry.Some? ==>
      && cm.Some?
      && Lookup(cm.value.labels, LABEL_DISCOVERY_PUBLIC) == Some(LABEL_SHOOT_CA)
      && Lookup(cm.value.labels, LABEL_UPDATE_RESTRICTION) == Some("true")
      && CA_KEY in cm.value.data && libs.marshalBundle(cm.value.data[CA_KEY]) == Some(entry.value.payload)
      && OnlyCACertificates(libs, cm.value.data[CA_KEY])
      && LABEL_SHOOT_UID in cm.value.labels
      && exists p :: entry.value.dataKey == Keys.Join(p, cm.value.labels[LABEL_SHOOT_UID])
  }

  lemma KeptEntryMirrors(libs: Libs, req: Request, cm: ConfigMap, seen: seq<Answer>)
    ensures var next := NextStep(libs, req, cm, seen);
            next.Done? && next.outcome.Keep? ==> Mirrors(libs, Some(cm), Some(next.outcome.data))
  {
    if CA_KEY in cm.data { AllCABlocksMeans(libs, cm.data[CA_KEY]); }
  }

  /** Coherence over all interleavings: an idle configmap's entry is that of the configmap as it is now. */
  lemma CommitsAreCoherent(libs: Libs, resync: nat, run: CertRun, i: nat, req: Request)
    requires IsRun(Reconciler(libs, resync), run) && i < |run.states|
    requires Idle(Reconciler(libs, resync), run.states[i], req)
    ensures Mirrors(libs, Lookup(run.states[i].objs, req), Lookup(run.states[i].own, req))
  {
    var prog := Reconciler(libs, resync);
    var ok := (q: Query, a: Answer) => true;
    var good := (k: Request, cm: Option<ConfigMap>, entry: Option<Entry>) => Mirrors(libs, cm, entry);
    forall k: Request, cm: ConfigMap, seen: seq<Answer> | prog.next(k, cm, seen).Done?
      ensures Suits(good, k, Some(cm), prog.next(k, cm, seen).outcome)
    {
      KeptEntryMirrors(libs, k, cm, seen);
    }
    IdleKeyIsCoherent(prog, ok, good, run, i, req);
  }

  /** In an exclusive run, what is stored is what some mapped configmap says, as it is now if it is idle. */
  lemma StoreIsCoherent(libs: Libs, resync: nat, run: CertRun, i: nat, dataKey: string) returns (req: Request)
    requires IsRun(Reconciler(libs, resync), run) && Exclusive(run) && i < |run.states|
        && dataKey in IndexAt(run, i).store
    ensures req in run.states[i].own && run.states[i].own[req] == Entry(dataKey, IndexAt(run, i).store[dataKey])
    ensures Idle(Reconciler(libs, resync), run.states[i], req) ==>
              Mirrors(libs, Lookup(run.states[i].objs, req), Some(run.states[i].own[req]))
  {
    StoreHoldsExactlyOwned(libs, resync, run, i, dataKey, IndexAt(run, i).store[dataKey]);
    req :| req in run.states[i].own && run.states[i].own[req] == Entry(dataKey, IndexAt(run, i).store[dataKey]);
    if Idle(Reconciler(libs, resync), run.states[i], req) { CommitsAreCoherent(libs, resync, run, i, req); }
  }

  // ---------------------------------------------------------------- what the store drains to

  /** The verdict on each configmap while the rest of the cluster stays as it is. */
  function Verdict(libs: Libs, w: World): (Request, Option<ConfigMap>) -> Outcome<Entry> {
    (req: Request, cm: Option<ConfigMap>) => Decide(libs, w, req, cm)
  }

  ghost predicate AnsweredBy(libs: Libs, w: World, req: Request, cm: ConfigMap, seen: seq<Answer>) {
    forall j | 0 <= j < |seen| ::
      && NextStep(libs, req, cm, seen[..j]).Ask?
      && seen[j] == Respond(w, NextStep(libs, req, cm, seen[..j]).query)
  }

  lemma ProgramDecides(libs: Libs, w: World, req: Request, cm: ConfigMap, seen: seq<Answer>)
    requires AnsweredBy(libs, w, req, cm, seen) && NextStep(libs, req, cm, seen).Done?
    ensures NextStep(libs, req, cm, seen).outcome == Decide(libs, w, req, Some(cm))
  {
  }

  lemma ReconcilerDecides(libs: Libs, resync: nat, w: World)
    ensures Decides(Reconciler(libs, resync), w, Verdict(libs, w))
        && Decides(UnfilteredReconciler(libs, resync), w, Verdict(libs, w))
  {
    var prog := Reconciler(libs, resync);
    forall req: Request, cm: ConfigMap, seen: seq<Answer>
      | (Answers(prog, AnswersOf(w), req, cm, seen)
          || Answers(UnfilteredReconciler(libs, resync), AnswersOf(w), req, cm, seen))
        && prog.next(req, cm, seen).Done?
      ensures prog.next(req, cm, seen).outcome == Verdict(libs, w)(req, Some(cm))
    {
      ProgramDecides(libs, w, req, cm, seen);
    }
    forall req: Request, before: Option<ConfigMap>, after: Option<ConfigMap>
      | (before.Some? || after.Some?) && !prog.passes(EventOf(req, before, after))
      ensures Verdict(libs, w)(req, before) == Verdict(libs, w)(req, after) == Drop
    {
      DroppedEventNeverMatters(libs, req, before, after, w, w);
    }
  }

  /** With nothing outstanding and the rest of the cluster fixed, the commits are what the configmaps call for. */
  lemma CommitsDrain(libs: Libs, resync: nat, filtered: bool, w: World, run: CertRun, i: nat)
    requires var prog := if filtered then Reconciler(libs, resync) else UnfilteredReconciler(libs, resync);
             IsRun(prog, run) && i < |run.states| && forall req :: Idle(prog, run.states[i], req)
    requires Fixed(w, run)
    ensures run.states[i].own == Declared(Verdict(libs, w), run.states[i].objs)
  {
    ReconcilerDecides(libs, resync, w);
    var prog := if filtered then Reconciler(libs, resync) else UnfilteredReconciler(libs, resync);
    DrainsToDeclared(prog, w, Verdict(libs, w), run, i);
  }

  /** Every bundle that is otherwise in order can be marshalled. */
  ghost predicate AllMarshal(libs: Libs, w: World, cms: map<Request, ConfigMap>) {
    forall req, p, u | req in cms && Valid(libs, w, req, cms[req], p, u) ::
      libs.marshalBundle(cms[req].data[CA_KEY]).Some?
  }

  lemma MarshallingIsOnlyError(libs: Libs, resync: nat, w: World, cms: map<Request, ConfigMap>)
    ensures ErrorFree(Reconciler(libs, resync), MAX_READS, Verdict(libs, w), cms) <==> AllMarshal(libs, w, cms)
  {
    forall req | req in cms
      ensures Verdict(libs, w)(req, Some(cms[req])) != Fail
      ensures Verdict(libs, w)(req, Some(cms[req])) == DropAndFail <==>
                (exists p, u :: Valid(libs, w, req, cms[req], p, u)) && libs.marshalBundle(cms[req].data[CA_KEY]).None?
    {
      DecideErrsExactlyOnMarshal(libs, w, req, cms[req]);
    }
  }

  /** Left to itself the controller drains to exactly those commits, on every schedule and within its load. */
  lemma EveryScheduleDrainsCommits(libs: Libs, resync: nat, w: World, run: CertRun, i: nat, j: nat)
    requires IsRun(Reconciler(libs, resync), run) && Fixed(w, run) && i <= j < |run.states|
    requires AllMarshal(libs, w, run.states[i].objs) && forall m | i <= m < j :: Internal(run.steps[m])
    ensures j - i <= Load(Reconciler(libs, resync), MAX_READS, run.states[i])
    ensures (forall step: Step<Request, ConfigMap> :: Internal(step) ==> !Enabled(run.states[j], step)) ==>
              run.states[j].own == Declared(Verdict(libs, w), run.states[i].objs)
  {
    ReconcilerDecides(libs, resync, w);
    MarshallingIsOnlyError(libs, resync, w, run.states[i].objs);
    EveryScheduleDrains(Reconciler(libs, resync), MAX_READS, w, Verdict(libs, w), run, i, j);
  }

  /** Quiescence is within reach if and only if every valid bundle can be marshalled. */
  lemma CommitsCanDrainIff(libs: Libs, resync: nat, w: World, run: CertRun)
    requires IsRun(Reconciler(libs, resync), run) && Fixed(w, run)
    ensures (exists longer :: Continues(Reconciler(libs, resync), run, longer) && Quiet(Last(longer))) <==>
              AllMarshal(libs, w, Last(run).objs)
  {
    ReconcilerDecides(libs, resync, w);
    MarshallingIsOnlyError(libs, resync, w, Last(run).objs);
    CanDrainIff(Reconciler(libs, resync), MAX_READS, w, Verdict(libs, w), run);
  }

  /** And then those are the commits it leads to. */
  lemma CommitsCanDrain(libs: Libs, resync: nat, w: World, run: CertRun) returns (longer: CertRun)
    requires IsRun(Reconciler(libs, resync), run) && Fixed(w, run)
    requires AllMarshal(libs, w, Last(run).objs)
    ensures Continues(Reconciler(libs, resync), run, longer) && Quiet(Last(longer))
    ensures Last(longer).own == Declared(Verdict(libs, w), Last(run).objs)
  {
    ReconcilerDecides(libs, resync, w);
    MarshallingIsOnlyError(libs, resync, w, Last(run).objs);
    longer := CanDrainToDeclared(Reconciler(libs, resync), MAX_READS, w, Verdict(libs, w), run);
  }

  /** A faithful index is determined by the commits it is faithful to. */
  lemma FaithfulDetermines(a: CertificateIndex.Index, b: CertificateIndex.Index, own: map<Request, Entry>)
    requires Faithful(a, own) && Faithful(b, own)
    ensures a == b
  {
  }

  /**
   * The event filter loses nothing, index included: filtered and unfiltered commits drain to the same
   * entries, and if no data key was ever shared or re-pointed the two indexes are equal.
   */
  lemma FilterLosesNothing(libs: Libs, resync: nat, w: World, filtered: CertRun, i: nat, unfiltered: CertRun, j: nat)
    requires IsRun(Reconciler(libs, resync), filtered) && IsRun(UnfilteredReconciler(libs, resync), unfiltered)
    requires Fixed(w, filtered) && Fixed(w, unfiltered) && i < |filtered.states| && j < |unfiltered.states|
    requires filtered.states[i].objs == unfiltered.states[j].objs
    requires forall req :: Idle(Reconciler(libs, resync), filtered.states[i], req)
    requires forall req :: Idle(UnfilteredReconciler(libs, resync), unfiltered.states[j], req)
    ensures filtered.states[i].own == unfiltered.states[j].own
    ensures Exclusive(filtered) && Exclusive(unfiltered) ==> IndexAt(filtered, i) == IndexAt(unfiltered, j)
  {
    CommitsDrain(libs, resync, true, w, filtered, i);
    CommitsDrain(libs, resync, false, w, unfiltered, j);
    if Exclusive(filtered) && Exclusive(unfiltered) {
      IndexIsFaithful(libs, Reconciler(libs, resync), filtered, i);
      IndexIsFaithful(libs, UnfilteredReconciler(libs, resync), unfiltered, j);
      FaithfulDetermines(IndexAt(filtered, i), IndexAt(unfiltered, j), filtered.states[i].own);
    }
  }

  // ---------------------------------------------------------------- provenance of what is served

  /** One reconcile's worth of facts about a configmap, each object as it was when it was read. */
  ghost predicate Vetted(
      libs: Libs, req: Request, cm: ConfigMap, atNamespace: World, atProject: World, atShoot: World, p: string,
      u: string)
  {
    && !cm.deleting && CA_KEY in cm.data && cm.data[CA_KEY] != []
    && Lookup(cm.labels, LABEL_DISCOVERY_PUBLIC) == Some(LABEL_SHOOT_CA)
    && Lookup(cm.labels, LABEL_UPDATE_RESTRICTION) == Some("true")
    && req.namespace in atNamespace.namespaces
    && Lookup(atNamespace.namespaces[req.namespace].labels, LABEL_PROJECT_NAME) == Some(p)
    && p in atProject.projects && atProject.projects[p].namespace == Some(req.namespace)
    && Lookup(cm.labels, LABEL_SHOOT_UID) == Some(u) && LABEL_SHOOT_NAME in cm.labels
    && var key := NamespacedName(req.namespace, cm.labels[LABEL_SHOOT_NAME]);
    && key in atShoot.shoots && atShoot.shoots[key].uid == u
    && OnlyCACertificates(libs, cm.data[CA_KEY])
  }

  lemma KeepMeansVetted(
      libs: Libs, req: Request, cm: ConfigMap, seen: seq<Answer>, atNamespace: World, atProject: World,
      atShoot: World, entry: Entry)
    requires NextStep(libs, req, cm, seen) == Done(Keep(entry)) && |seen| == 3
    requires NextStep(libs, req, cm, []).Ask? && seen[0] == Respond(atNamespace, NextStep(libs, req, cm, []).query)
    requires NextStep(libs, req, cm, seen[..1]).Ask?
        && seen[1] == Respond(atProject, NextStep(libs, req, cm, seen[..1]).query)
    requires NextStep(libs, req, cm, seen[..2]).Ask?
        && seen[2] == Respond(atShoot, NextStep(libs, req, cm, seen[..2]).query)
    ensures exists p, u ::
              Vetted(libs, req, cm, atNamespace, atProject, atShoot, p, u) && entry.dataKey == Keys.Join(p, u)
    ensures CA_KEY in cm.data && libs.marshalBundle(cm.data[CA_KEY]) == Some(entry.payload)
  {
    AllCABlocksMeans(libs, cm.data[CA_KEY]);
    var p := ProjectOf(seen[0].namespace).value;
    assert seen[..1][0] == seen[0] && seen[..2][0] == seen[0] && seen[..2][1] == seen[1];
    assert Vetted(libs, req, cm, atNamespace, atProject, atShoot, p, cm.labels[LABEL_SHOOT_UID]);
  }

  /** An entry was vetted by the reconcile `e` of `req`: one object read, then three further reads. */
  ghost predicate VettedBy(libs: Libs, run: CertRun, req: Request, e: Evidence<ConfigMap>, p: string, u: string) {
    && |e.gets| == 3 && e.start < e.gets[0] < e.gets[1] < e.gets[2] < e.commit < |run.states|
    && BusyFrom(run, req, e.start, e.commit)
    && Lookup(run.states[e.start].objs, req) == Some(e.obj)
    && Vetted(libs, req, e.obj, run.states[e.gets[0]].world, run.states[e.gets[1]].world, run.states[e.gets[2]].world,
        p, u)
  }

  lemma WitnessIsVetted(libs: Libs, resync: nat, run: CertRun, req: Request, entry: Entry, e: Evidence<ConfigMap>)
    requires IsRun(Reconciler(libs, resync), run) && Witness(Reconciler(libs, resync), run, req, entry, e)
    ensures exists p, u :: VettedBy(libs, run, req, e, p, u) && entry.dataKey == Keys.Join(p, u)
    ensures CA_KEY in e.obj.data && libs.marshalBundle(e.obj.data[CA_KEY]) == Some(entry.payload)
  {
    var prog := Reconciler(libs, resync);
    assert |e.seen| > 3 ==> IsRead(prog, run, req, e.obj, e.seen, 3, e.gets[3]);
    forall j | 0 <= j < 3 ensures IsRead(prog, run, req, e.obj, e.seen, j, e.gets[j]) {}
    assert e.seen[..0] == [];
    var w0, w1, w2 := run.states[e.gets[0]].world, run.states[e.gets[1]].world, run.states[e.gets[2]].world;
    KeepMeansVetted(libs, req, e.obj, e.seen, w0, w1, w2, entry);
    var p, u :| Vetted(libs, req, e.obj, w0, w1, w2, p, u) && entry.dataKey == Keys.Join(p, u);
    assert VettedBy(libs, run, req, e, p, u);
  }

  /** Step `t` writes under `dataKey`, for `req`. */
  ghost predicate Writes(run: CertRun, t: nat, req: Request, dataKey: string) {
    exists payload :: Keeps(run, t, req, Entry(dataKey, payload))
  }

  /** In any run at all, each stored bundle was put there by one commit, the last on its key. */
  lemma {:induction false} StoredBundleHasCommit(libs: Libs, resync: nat, run: CertRun, i: nat, dataKey: string)
    returns (w: nat, req: Request)
    requires IsRun(Reconciler(libs, resync), run) && i < |run.states| && dataKey in IndexAt(run, i).store
    ensures w < i && Keeps(run, w, req, Entry(dataKey, IndexAt(run, i).store[dataKey]))
    ensures forall t, k | w < t < i :: !Writes(run, t, k, dataKey)
  {
    assert i > 0;
    var author := WrittenOrKept(libs, resync, run, i - 1, dataKey);
    if author.Some? {
      w, req := i - 1, author.value;
    } else {
      w, req := StoredBundleHasCommit(libs, resync, run, i - 1, dataKey);
    }
  }

  /** What is stored after a step was written by it, or was there already and the step wrote nothing. */
  lemma WrittenOrKept(libs: Libs, resync: nat, run: CertRun, i: nat, dataKey: string)
      returns (author: Option<Request>)
    requires IsRun(Reconciler(libs, resync), run) && i < |run.steps| && dataKey in IndexAt(run, i + 1).store
    ensures author.Some? ==> Keeps(run, i, author.value, Entry(dataKey, IndexAt(run, i + 1).store[dataKey]))
    ensures author.None? ==> Lookup(IndexAt(run, i).store, dataKey) == Some(IndexAt(run, i + 1).store[dataKey])
    ensures author.None? ==> forall k :: !Writes(run, i, k, dataKey)
  {
    var effect, k := EffectStep(Reconciler(libs, resync), run, i);
    author := if effect.Some? && effect.value.Create? && effect.value.dataKey == dataKey then Some(k) else None;
  }

  ghost predicate CanonicalShoots(run: CertRun) {
    forall i, key | 0 <= i < |run.states| && key in run.states[i].world.shoots ::
      Keys.CanonicalUUID(run.states[i].world.shoots[key].uid)
  }

  /**
   * End to end, with no hypothesis on data keys: the body of a 200 reply on the CA endpoint for project `p`
   * and UID `u` is the JSON-wrapped bundle of a configmap one earlier reconcile vetted for `p` and `u`.
   */
  lemma ServedBundleWasVetted(
      libs: Libs, resync: nat, run: CertRun, i: nat, acceptsUID: string -> bool, req: Handler.Request)
      returns (owner: Request, e: Evidence<ConfigMap>)
    requires IsRun(Reconciler(libs, resync), run) && CanonicalShoots(run) && i < |run.states|
    requires forall uid | acceptsUID(uid) :: Keys.UUIDShape(uid)
    requires Handler.Served(IndexAt(run, i).store, payload => payload, acceptsUID, req).status == Handler.STATUS_OK
    ensures e.commit < i && VettedBy(libs, run, owner, e, req.project, req.uid) && CA_KEY in e.obj.data
    ensures libs.marshalBundle(e.obj.data[CA_KEY]) ==
        Some(Handler.Served(IndexAt(run, i).store, payload => payload, acceptsUID, req).body)
  {
    var dataKey := Keys.Join(req.project, req.uid);
    var entry := Entry(dataKey, IndexAt(run, i).store[dataKey]);
    var w;
    w, owner := StoredBundleHasCommit(libs, resync, run, i, dataKey);
    e := CommitHasWitness(Reconciler(libs, resync), run, w, owner, entry);
    WitnessIsVetted(libs, resync, run, owner, entry, e);
    var p, u :| VettedBy(libs, run, owner, e, p, u) && entry.dataKey == Keys.Join(p, u);
    Keys.LookupFindsOnlyItsShoot(p, u, req.project, req.uid);
  }

  /** No reconcile of a configmap ends in an error that leaves the index alone unless a read fails. */
  lemma NeverFails(libs: Libs, resync: nat, run: CertRun, req: Request)
    requires IsRun(Reconciler(libs, resync), run) && Prompt(run, req)
    ensures Punctual(run, req)
  {
    PromptIsPunctual(Reconciler(libs, resync), run, req);
  }

  /** The run is prompt for every configmap that ever writes under `dataKey`. */
  ghost predicate PromptOn(run: CertRun, dataKey: string) {
    forall t, req | Writes(run, t, req, dataKey) :: Prompt(run, req)
  }

  /**
   * What is stored under `dataKey` was written by the reconcile `e` of `owner`, read and vetted at most
   * `resync` ago.
   */
  ghost predicate RecentBy(
      libs: Libs, resync: nat, run: CertRun, i: nat, dataKey: string, owner: Request, e: Evidence<ConfigMap>)
    requires i < |run.states| == |run.steps| + 1 && dataKey in IndexAt(run, i).store
  {
    && e.commit < i && Writes(run, e.commit, owner, dataKey)
    && (exists p, u :: VettedBy(libs, run, owner, e, p, u) && dataKey == Keys.Join(p, u))
    && CA_KEY in e.obj.data && libs.marshalBundle(e.obj.data[CA_KEY]) == Some(IndexAt(run, i).store[dataKey])
    && run.states[i].now <= run.states[e.start].now + resync
  }

  /** A configmap mapped to `dataKey` wrote there in a reconcile that is not overdue. */
  lemma MappedKeyIsRechecked(libs: Libs, resync: nat, run: CertRun, i: nat, dataKey: string) returns (c: nat)
    requires IsRun(Reconciler(libs, resync), run) && PromptOn(run, dataKey) && resync > 0 && i < |run.states|
    requires dataKey in IndexAt(run, i).mapping.Values
    ensures c < i && (exists req :: Writes(run, c, req, dataKey))
    ensures run.states[i].now <= run.states[c].now + resync
  {
    var prog := Reconciler(libs, resync);
    MappingFollowsCommits(libs, prog, run, i);
    var m :| m in IndexAt(run, i).mapping && IndexAt(run, i).mapping[m] == dataKey;
    var req: Request :| req in run.states[i].own && Keys.MappingKey(req) == m;
    assert Lookup(IndexAt(run, i).mapping, Keys.MappingKey(req)) == Some(run.states[i].own[req].dataKey);
    var first := CommittedDataHasWitness(prog, run, i, req);
    assert Writes(run, first.commit, req, dataKey);
    NeverFails(libs, resync, run, req);
    var e := CommittedDataIsRecent(prog, run, i, req);
    assert Writes(run, e.commit, req, dataKey);
    TimeOnlyPasses(prog, run, e.start, e.commit);
    c := e.commit;
  }

  /**
   * Bounded staleness, whatever other configmaps do: in a run prompt for those that write under a data key,
   * the bundle stored there was read and passed every check at most one period ago, as long as any
   * configmap is mapped to the key. Sharing the key does not matter.
   */
  lemma MappedBundleIsRecent(libs: Libs, resync: nat, run: CertRun, i: nat, dataKey: string)
    returns (owner: Request, e: Evidence<ConfigMap>)
    requires IsRun(Reconciler(libs, resync), run) && PromptOn(run, dataKey) && resync > 0 && i < |run.states|
    requires dataKey in IndexAt(run, i).store && dataKey in IndexAt(run, i).mapping.Values
    ensures RecentBy(libs, resync, run, i, dataKey, owner, e)
  {
    var prog, entry := Reconciler(libs, resync), Entry(dataKey, IndexAt(run, i).store[dataKey]);
    var c := MappedKeyIsRechecked(libs, resync, run, i, dataKey);
    var w;
    w, owner := StoredBundleHasCommit(libs, resync, run, i, dataKey);
    assert Writes(run, w, owner, dataKey);
    TimeOnlyPasses(prog, run, c, w);
    NeverFails(libs, resync, run, owner);
    e := CommitHasWitness(prog, run, w, owner, entry);
    NoTimePassesWhileBusy(prog, run, owner, e.start, w);
    WitnessIsVetted(libs, resync, run, owner, entry, e);
  }

  /** In an exclusive run that is prompt on the key, whatever is stored there is recent. */
  lemma StoredBundleIsRecent(libs: Libs, resync: nat, run: CertRun, i: nat, dataKey: string)
    returns (owner: Request, e: Evidence<ConfigMap>)
    requires IsRun(Reconciler(libs, resync), run) && Exclusive(run) && PromptOn(run, dataKey) && resync > 0
    requires i < |run.states| && dataKey in IndexAt(run, i).store
    ensures RecentBy(libs, resync, run, i, dataKey, owner, e)
  {
    IndexIsFaithful(libs, Reconciler(libs, resync), run, i);
    owner, e := MappedBundleIsRecent(libs, resync, run, i, dataKey);
  }
}
