/** One data key of the CA store at a time: what holds of it whatever happens to the others. */
module DataKeys {
  import opened Wrappers
  import opened Cluster
  import opened Controller
  import opened Certificates
  import opened Provenance
  import opened CertificateSystem
  import CertificateIndex
  import Keys

  // ---------------------------------------------------------------- a key with one owner

  /** Only `owner` ever writes under `dataKey`, and it is not re-pointed while it is mapped there. */
  ghost predicate SoleOwner(run: CertRun, owner: Request, dataKey: string) {
    && |run.steps| < |run.states|
    && forall t: nat, req: Request, entry: Entry | Keeps(run, t, req, entry) ::
         && (entry.dataKey == dataKey ==> req == owner)
         && (req == owner && OwnsKey(run.states[t].own, owner, dataKey) ==> entry.dataKey == dataKey)
  }

  ghost predicate OwnsKey(own: map<Request, Entry>, owner: Request, dataKey: string) {
    owner in own && own[owner].dataKey == dataKey
  }

  lemma OthersOwnOtherKeys(libs: Libs, resync: nat, run: CertRun, i: nat, owner: Request, dataKey: string, req: Request)
    requires IsRun(Reconciler(libs, resync), run) && SoleOwner(run, owner, dataKey) && i < |run.states|
    requires OwnsKey(run.states[i].own, req, dataKey)
    ensures req == owner
  {
    var e := CommittedDataHasWitness(Reconciler(libs, resync), run, i, req);
  }

  function OwnedUnder(own: map<Request, Entry>, owner: Request, dataKey: string): Option<Bytes> {
    if owner in own && own[owner].dataKey == dataKey then Some(own[owner].payload) else None
  }

  lemma OwnedKeyStep(
      ix: CertificateIndex.Index, own: map<Request, Entry>, k: Request, op: CertificateIndex.Op,
      own': map<Request, Entry>, owner: Request, dataKey: string)
    requires Lookup(ix.mapping, Keys.MappingKey(k)) == if k in own then Some(own[k].dataKey) else None
    requires dataKey != "" && Lookup(ix.store, dataKey) == OwnedUnder(own, owner, dataKey)
    requires op.mapKey == Keys.MappingKey(k)
    requires op.Create? ==>
               && own' == own[k := Entry(op.dataKey, op.data)] && (op.dataKey == dataKey ==> k == owner)
               && (k == owner && OwnsKey(own, owner, dataKey) ==> op.dataKey == dataKey)
    requires op.Delete? ==> own' == own - {k} && (OwnsKey(own, k, dataKey) ==> k == owner)
    ensures Lookup(CertificateIndex.Do(ix, op).store, dataKey) == OwnedUnder(own', owner, dataKey)
  {
  }

  /** Then the key holds exactly what its owner committed, in every state, whoever else shares or is re-pointed. */
  lemma {:induction false} KeyFollowsOwner(
      libs: Libs, resync: nat, run: CertRun, i: nat, owner: Request, dataKey: string)
    requires IsRun(Reconciler(libs, resync), run) && SoleOwner(run, owner, dataKey) && i < |run.states| && dataKey != ""
    ensures Lookup(IndexAt(run, i).store, dataKey) == OwnedUnder(run.states[i].own, owner, dataKey)
  {
    if i > 0 {
      KeyFollowsOwner(libs, resync, run, i - 1, owner, dataKey);
      KeyFollowsOwnerOnce(libs, resync, run, i - 1, owner, dataKey);
    }
  }

  lemma KeyFollowsOwnerOnce(libs: Libs, resync: nat, run: CertRun, i: nat, owner: Request, dataKey: string)
    requires IsRun(Reconciler(libs, resync), run) && SoleOwner(run, owner, dataKey) && i < |run.steps| && dataKey != ""
    requires Lookup(IndexAt(run, i).store, dataKey) == OwnedUnder(run.states[i].own, owner, dataKey)
    ensures Lookup(IndexAt(run, i + 1).store, dataKey) == OwnedUnder(run.states[i + 1].own, owner, dataKey)
  {
    var prog, own := Reconciler(libs, resync), run.states[i].own;
    var effect, k := EffectStep(prog, run, i);
    if effect.Some? {
      MappingFollowsCommits(libs, prog, run, i);
      if effect.value.Create? { assert Keeps(run, i, k, Entry(effect.value.dataKey, effect.value.data)); }
      if OwnsKey(own, k, dataKey) { OthersOwnOtherKeys(libs, resync, run, i, owner, dataKey, k); }
      OwnedKeyStep(IndexAt(run, i), own, k, effect.value, run.states[i + 1].own, owner, dataKey);
    }
  }

  /** And when the owner is idle, that is the bundle of the configmap as it is now. */
  lemma KeyIsCoherent(libs: Libs, resync: nat, run: CertRun, i: nat, owner: Request, dataKey: string)
    requires IsRun(Reconciler(libs, resync), run) && SoleOwner(run, owner, dataKey) && i < |run.states|
    requires Idle(Reconciler(libs, resync), run.states[i], owner) && dataKey in IndexAt(run, i).store
    ensures Mirrors(libs, Lookup(run.states[i].objs, owner), Some(Entry(dataKey, IndexAt(run, i).store[dataKey])))
  {
    StoredKeyIsNamed(libs, resync, run, i, dataKey);
    KeyFollowsOwner(libs, resync, run, i, owner, dataKey);
    CommitsAreCoherent(libs, resync, run, i, owner);
  }

  lemma StoredKeyIsNamed(libs: Libs, resync: nat, run: CertRun, i: nat, dataKey: string)
    requires IsRun(Reconciler(libs, resync), run) && i < |run.states| && dataKey in IndexAt(run, i).store
    ensures dataKey != ""
  {
    var w, req := StoredBundleHasCommit(libs, resync, run, i, dataKey);
    KeptKeysAreJoined(libs, Reconciler(libs, resync), run, w, req);
  }

  // ---------------------------------------------------------------- a key nobody is mapped to

  /**
   * A stored key that no configmap is mapped to keeps its payload until the next write under it, however far
   * time advances and whatever becomes of the configmap it came from.
   */
  lemma {:induction false} OrphanIsServedOn(libs: Libs, resync: nat, run: CertRun, i: nat, j: nat, dataKey: string)
    requires IsRun(Reconciler(libs, resync), run) && i <= j < |run.states|
    requires dataKey in IndexAt(run, i).store && dataKey !in IndexAt(run, i).mapping.Values
    requires forall t, req | i <= t < j :: !Writes(run, t, req, dataKey)
    ensures Lookup(IndexAt(run, j).store, dataKey) == Some(IndexAt(run, i).store[dataKey])
    ensures dataKey !in IndexAt(run, j).mapping.Values
  {
    if i < j {
      OrphanIsServedOn(libs, resync, run, i, j - 1, dataKey);
      OrphanStep(libs, resync, run, j - 1, dataKey);
    }
  }

  lemma OrphanStep(libs: Libs, resync: nat, run: CertRun, i: nat, dataKey: string)
    requires IsRun(Reconciler(libs, resync), run) && i < |run.steps|
    requires dataKey in IndexAt(run, i).store && dataKey !in IndexAt(run, i).mapping.Values
    requires forall req :: !Writes(run, i, req, dataKey)
    ensures Lookup(IndexAt(run, i + 1).store, dataKey) == Some(IndexAt(run, i).store[dataKey])
    ensures dataKey !in IndexAt(run, i + 1).mapping.Values
  {
    StoredKeyIsNamed(libs, resync, run, i, dataKey);
    var effect, k := EffectStep(Reconciler(libs, resync), run, i);
    if effect.Some? {
      if effect.value.Create? { assert Keeps(run, i, k, Entry(effect.value.dataKey, effect.value.data)); }
      assert effect.value.Create? && effect.value.dataKey == dataKey ==> Writes(run, i, k, dataKey);
      CertificateIndex.OrphanStaysOnce(IndexAt(run, i), effect.value, dataKey);
    }
  }
}
