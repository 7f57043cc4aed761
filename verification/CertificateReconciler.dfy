/** The shoot-ca reconciler, exit by exit, against the program the controller runs and the index it keeps. */
module CertificateReconciler {
  import opened Wrappers
  import opened Cluster
  import opened Controller
  import opened Client
  import opened Certificates
  import opened CertificateIndex
  import Keys
  import Stores

  /** What becomes of the index after an outcome for `mapKey`. */
  function After(ix: Index, mapKey: string, outcome: Outcome<Entry>): Index {
    match outcome
    case Keep(entry) => CreateMapping(ix, mapKey, entry.dataKey, entry.payload)
    case Drop => DeleteMapping(ix, mapKey)
    case DropAndFail => DeleteMapping(ix, mapKey)
    case Fail => ix
  }

  ghost function Bundles(stored: map<string, Stores.Content>): map<string, Bytes> {
    map k | k in stored && stored[k].CertificateOf? :: stored[k].caBundle
  }

  ghost predicate OnlyBundles(stored: map<string, Stores.Content>) {
    forall k | k in stored :: stored[k].CertificateOf?
  }

  class Reconciler {
    const libs: Libs
    const resyncPeriod: nat
    const store: Stores.Store
    var once: bool
    var storeMapping: map<string, string>

    ghost predicate Valid()
      reads this, store, store.Repr
    {
      store.Valid() && OnlyBundles(store.contents) && (!once ==> storeMapping == map[])
    }

    ghost function View(): Index
      reads this, store
    {
      Index(storeMapping, Bundles(store.contents))
    }

    constructor (libs: Libs, resyncPeriod: nat, store: Stores.Store)
      requires store.Valid() && OnlyBundles(store.contents)
      ensures Valid() && this.libs == libs && this.resyncPeriod == resyncPeriod && this.store == store
      ensures storeMapping == map[]
    {
      this.libs, this.resyncPeriod, this.store, once, storeMapping := libs, resyncPeriod, store, false, map[];
    }

    /** `init`: the mapping is made once, before its first use. */
    method Init()
      requires Valid()
      modifies this
      ensures Valid() && once && View() == old(View())
    {
      if !once {
        once, storeMapping := true, map[];
      }
    }

    /** `createMapping`, the lock held throughout. */
    method CreateMapping(mapKey: string, dataKey: string, data: Bytes)
      requires Valid() && once
      modifies this, store
      ensures Valid() && View() == CertificateIndex.CreateMapping(old(View()), mapKey, dataKey, data)
    {
      var b := Stores.FromBytes(data);
      assert store.Valid() && store.contents == old(store.contents);
      storeMapping := storeMapping[mapKey := dataKey];
      assert Stores.Value(Stores.Certificate(b)) == Stores.CertificateOf(data);
      store.Write(dataKey, Stores.Certificate(b));
      assert Bundles(store.contents) == Bundles(old(store.contents))[dataKey := data];
    }

    /** `deleteMapping`, the lock held throughout; an absent mapping reads as the empty string. */
    method DeleteMapping(mapKey: string)
      requires Valid()
      modifies this, store
      ensures Valid() && View() == CertificateIndex.DeleteMapping(old(View()), mapKey)
    {
      var dataKey := if mapKey in storeMapping then storeMapping[mapKey] else "";
      store.Delete(dataKey);
      storeMapping := storeMapping - {mapKey};
      assert Bundles(store.contents) == Bundles(old(store.contents)) - {dataKey};
    }

    /** The reconcile of `mapKey` ended as `outcome` says, starting from `before`. */
    ghost predicate Ended(before: Index, mapKey: string, outcome: Outcome<Entry>, result: Result)
      reads this, store, store.Repr
    {
      Valid() && View() == After(before, mapKey, outcome) && ResultOf(outcome, resyncPeriod, result)
    }

    /** The exits that remove the mapping and succeed. */
    method Remove(mapKey: string) returns (result: Result)
      requires Valid()
      modifies this, store
      ensures Ended(old(View()), mapKey, Drop, result)
    {
      DeleteMapping(mapKey);
      result := Result(0, None);
    }

    method Reconcile(client: Reads<Request, ConfigMap>, req: Request) returns (result: Result)
      requires Valid()
      modifies this, store
      ensures Ended(old(View()), Keys.MappingKey(req),
          Conclude(Certificates.Reconciler(libs, resyncPeriod), client, req), result)
    {
      var mappingKey := Keys.MappingKey(req);
      Init();
      var got := client.subject(req);
      if got.NotFound? {
        result := Remove(mappingKey);
      } else if got.Failed? {
        result := Result(0, Some(GetFailed));
      } else {
        result := WithConfigMap(client, req, got.value);
      }
    }

    /** From the configmap's own checks on. */
    method WithConfigMap(client: Reads<Request, ConfigMap>, req: Request, cm: ConfigMap) returns (result: Result)
      requires Valid() && once
      modifies this, store
      ensures Ended(old(View()), Keys.MappingKey(req),
                    Follow(Certificates.Reconciler(libs, resyncPeriod), client, req, cm, [], MAX_READS), result)
    {
      var mappingKey := Keys.MappingKey(req);
      if cm.deleting { result := Remove(mappingKey); return; }
      if CA_KEY !in cm.data || |cm.data[CA_KEY]| == 0 { result := Remove(mappingKey); return; }
      if Lookup(cm.labels, LABEL_DISCOVERY_PUBLIC) != Some(LABEL_SHOOT_CA)
          || Lookup(cm.labels, LABEL_UPDATE_RESTRICTION) != Some("true") {
        result := Remove(mappingKey); return;
      }
      var namespace := client.namespace(req.namespace);
      if namespace.NotFound? { result := Remove(mappingKey); return; }
      if namespace.Failed? { return Result(0, Some(GetFailed)); }
      if LABEL_PROJECT_NAME !in namespace.value.labels { result := Remove(mappingKey); return; }
      assert [] + [NamespaceIs(Some(namespace.value))] == [NamespaceIs(Some(namespace.value))];
      result := WithProject(client, req, cm, namespace.value, namespace.value.labels[LABEL_PROJECT_NAME]);
    }

    /** From the read of the project on. */
    method WithProject(
        client: Reads<Request, ConfigMap>, req: Request, cm: ConfigMap, namespace: Namespace, projectName: string)
        returns (result: Result)
      requires Valid() && once && CheckConfigMap(cm) && ProjectOf(Some(namespace)) == Some(projectName)
      modifies this, store
      ensures Ended(old(View()), Keys.MappingKey(req),
                    Follow(Certificates.Reconciler(libs, resyncPeriod), client, req, cm,
                        [NamespaceIs(Some(namespace))], MAX_READS - 1), result)
    {
      var mappingKey := Keys.MappingKey(req);
      var project := client.project(projectName);
      if project.NotFound? { result := Remove(mappingKey); return; }
      if project.Failed? { return Result(0, Some(GetFailed)); }
      if project.value.namespace == None { result := Remove(mappingKey); return; }
      if project.value.namespace.value != req.namespace { result := Remove(mappingKey); return; }
      if LABEL_SHOOT_NAME !in cm.labels { result := Remove(mappingKey); return; }
      if LABEL_SHOOT_UID !in cm.labels { result := Remove(mappingKey); return; }
      result := WithShoot(client, req, cm, namespace, projectName, project.value);
    }

    /** From the read of the shoot on. */
    method WithShoot(
        client: Reads<Request, ConfigMap>, req: Request, cm: ConfigMap, namespace: Namespace, projectName: string,
        project: Project) returns (result: Result)
      requires Valid() && once && CheckConfigMap(cm) && ProjectOf(Some(namespace)) == Some(projectName)
      requires CheckProject(req, cm, Some(project))
      modifies this, store
      ensures Ended(old(View()), Keys.MappingKey(req),
                    Follow(Certificates.Reconciler(libs, resyncPeriod), client, req, cm,
                           [NamespaceIs(Some(namespace))] + [ProjectIs(Some(project))], MAX_READS - 2), result)
    {
      var mappingKey := Keys.MappingKey(req);
      var shoot := client.shoot(NamespacedName(req.namespace, cm.labels[LABEL_SHOOT_NAME]));
      if shoot.NotFound? { result := Remove(mappingKey); return; }
      if shoot.Failed? { return Result(0, Some(GetFailed)); }
      if cm.labels[LABEL_SHOOT_UID] != shoot.value.uid { result := Remove(mappingKey); return; }
      result := Publish(mappingKey, cm, projectName, shoot.value);
    }

    /** The last stretch: the bundle is scanned, wrapped and written, or the mapping removed. */
    method Publish(mappingKey: string, cm: ConfigMap, projectName: string, shoot: Shoot) returns (result: Result)
      requires Valid() && once && CheckConfigMap(cm) && Lookup(cm.labels, LABEL_SHOOT_UID) == Some(shoot.uid)
      modifies this, store
      ensures Ended(old(View()), mappingKey, CheckBundle(libs, cm, projectName, Some(shoot)), result)
    {
      var data := cm.data[CA_KEY];
      var clean := ScanBundle(libs, data);
      assert Valid() && View() == old(View());
      if !clean { result := Remove(mappingKey); return; }
      var payload := libs.marshalBundle(data);
      if payload.None? {
        DeleteMapping(mappingKey);
        return Result(0, Some(MarshalFailed));
      }
      CreateMapping(mappingKey, projectName + "--" + shoot.uid, payload.value);
      result := Result(resyncPeriod, None);
    }
  }

  /** Somewhere in the chain a block is found that is no header-less CERTIFICATE, or does not parse as a CA. */
  ghost predicate HasBadBlock(libs: Libs, data: Bytes) {
    exists rests :: IsChain(libs.decode, data, rests) && libs.decode(rests[|rests| - 1]).Some? &&
      var block := libs.decode(rests[|rests| - 1]).value.0;
      || block.kind != "CERTIFICATE" || block.headers != map[]
      || libs.parseCertificate(block.bytes).None? || !libs.parseCertificate(block.bytes).value.isCA
  }

  lemma BadBlockIsNoCABlock(libs: Libs, data: Bytes)
    requires HasBadBlock(libs, data)
    ensures !AllCABlocks(libs, data)
  {
    AllCABlocksMeans(libs, data);
  }

  /** A bundle with a bad block at any position leaves the configmap unmapped and its data key absent. */
  lemma BadBlockUnpublishes(libs: Libs, req: Request, cm: ConfigMap, w: World, ix: Index)
    requires CA_KEY in cm.data && HasBadBlock(libs, cm.data[CA_KEY])
    ensures Decide(libs, w, req, Some(cm)) == Drop
    ensures Unpublished(ix, Keys.MappingKey(req), After(ix, Keys.MappingKey(req), Decide(libs, w, req, Some(cm))))
  {
    BadBlockIsNoCABlock(libs, cm.data[CA_KEY]);
    if Consistent(ix) { DeleteKeeps(ix, Keys.MappingKey(req)); }
  }

  /** `mapKey` is unmapped, the data key it had is absent from the store, and a consistent index still is. */
  ghost predicate Unpublished(ix: Index, mapKey: string, after: Index) {
    && mapKey !in after.mapping
    && (mapKey in ix.mapping ==> ix.mapping[mapKey] !in after.store)
    && (Consistent(ix) ==> Consistent(after))
  }

  /** Some read of another object failed. */
  ghost predicate ReadFails(client: Reads<Request, ConfigMap>) {
    (exists n :: client.namespace(n).Failed?) || (exists p :: client.project(p).Failed?)
        || exists s :: client.shoot(s).Failed?
  }

  /**
   * Whatever the reads return, the reconcile of a bundle with a bad block removes it; only a failing read
   * can end it before, and then the index stays as it is.
   */
  lemma BadBlockIsRemoved(
      libs: Libs, resync: nat, client: Reads<Request, ConfigMap>, req: Request, cm: ConfigMap, ix: Index)
    requires client.subject(req) == Found(cm) && CA_KEY in cm.data && HasBadBlock(libs, cm.data[CA_KEY])
    ensures var outcome := Conclude(Certificates.Reconciler(libs, resync), client, req);
            var after := After(ix, Keys.MappingKey(req), outcome);
            if outcome == Fail then ReadFails(client) && after == ix else Unpublished(ix, Keys.MappingKey(req), after)
  {
    BadBlockIsNoCABlock(libs, cm.data[CA_KEY]);
    FollowIsRemoval(libs, resync, client, req, cm, [], MAX_READS);
    if Consistent(ix) { DeleteKeeps(ix, Keys.MappingKey(req)); }
  }

  lemma {:induction false} FollowIsRemoval(
      libs: Libs, resync: nat, client: Reads<Request, ConfigMap>, req: Request, cm: ConfigMap, seen: seq<Answer>,
      fuel: nat)
    requires CA_KEY in cm.data && !AllCABlocks(libs, cm.data[CA_KEY]) && |seen| + fuel == MAX_READS
    ensures var outcome := Follow(Certificates.Reconciler(libs, resync), client, req, cm, seen, fuel);
            outcome == Drop || (outcome == Fail && ReadFails(client))
    decreases fuel
  {
    var next := NextStep(libs, req, cm, seen);
    if next.Ask? && Reply(client, next.query).Some? && fuel > 0 {
      FollowIsRemoval(libs, resync, client, req, cm, seen + [Reply(client, next.query).value], fuel - 1);
    }
  }

  /** On an unchanging cache the reconcile concludes what `Decide` says. */
  lemma ConcludeDecides(libs: Libs, resync: nat, cms: map<Request, ConfigMap>, w: World, req: Request)
    ensures Conclude(Certificates.Reconciler(libs, resync), CacheReads(cms, w), req) ==
        Decide(libs, w, req, Lookup(cms, req))
  {
  }
}
