/** The shoot-openid-metadata reconciler, exit by exit, against the program the controller runs. */
module OidcReconciler {
  import opened Wrappers
  import opened Cluster
  import opened Controller
  import opened Client
  import opened Openidmeta
  import Keys
  import Stores

  /** What the store holds after an outcome for `name`. */
  function After(
      stored: map<string, Stores.Content>, name: string, outcome: Outcome<Data>): map<string, Stores.Content>
  {
    match outcome
    case Keep(d) => stored[name := Stores.MetadataOf(d.config, d.jwks)]
    case Drop => stored - {name}
    case DropAndFail => stored - {name}
    case Fail => stored
  }

  /** The exits before the first further read; None is any of the eight that remove the entry. */
  method ClaimOf(name: string, secret: Secret) returns (claim: Option<Claim>)
    ensures claim == CheckSecret(name, secret)
  {
    if secret.deleting { return None; }
    if OPENID_CONFIG_KEY !in secret.data || |secret.data[OPENID_CONFIG_KEY]| == 0 { return None; }
    if JWKS_KEY !in secret.data || |secret.data[JWKS_KEY]| == 0 { return None; }
    if LABEL_DISCOVERY_PUBLIC !in secret.labels
        || secret.labels[LABEL_DISCOVERY_PUBLIC] != LABEL_SERVICE_ACCOUNT_KEYS { return None; }
    if LABEL_PROJECT_NAME !in secret.labels { return None; }
    var projectName := secret.labels[LABEL_PROJECT_NAME];
    if LABEL_SHOOT_NAME !in secret.labels { return None; }
    var shootName := secret.labels[LABEL_SHOOT_NAME];
    if LABEL_SHOOT_NAMESPACE !in secret.labels { return None; }
    var shootNamespace := secret.labels[LABEL_SHOOT_NAMESPACE];
    var split := Keys.Split(name);
    if split.None? { return None; }
    var (projName, shootUID) := split.value;
    if projectName != projName { return None; }
    return Some(Claim(projectName, shootName, shootNamespace, shootUID));
  }

  class Reconciler {
    const libs: Libs
    const resyncPeriod: nat
    const store: Stores.Store

    constructor (libs: Libs, resyncPeriod: nat, store: Stores.Store)
      ensures this.libs == libs && this.resyncPeriod == resyncPeriod && this.store == store
    {
      this.libs, this.resyncPeriod, this.store := libs, resyncPeriod, store;
    }

    /** The reconcile of `name` ended as `outcome` says, starting from `before`. */
    ghost predicate Ended(before: map<string, Stores.Content>, name: string, outcome: Outcome<Data>, result: Result)
      reads store, store.Repr
    {
      store.Valid() && store.contents == After(before, name, outcome) && ResultOf(outcome, resyncPeriod, result)
    }

    /** The exits that remove the entry and succeed. */
    method Remove(name: string) returns (result: Result)
      requires store.Valid()
      modifies store
      ensures Ended(old(store.contents), name, Drop, result)
    {
      store.Delete(name);
      result := Result(0, None);
    }

    /** `Reconcile`; dereferencing a nil key set panics, which the manager recovers as an error. */
    method Reconcile(client: Reads<string, Secret>, name: string) returns (result: Result)
      requires store.Valid()
      modifies store
      ensures Ended(old(store.contents), name, Conclude(Openidmeta.Reconciler(libs, resyncPeriod), client, name),
          result)
    {
      var got := client.subject(name);
      if got.NotFound? {
        result := Remove(name);
      } else if got.Failed? {
        result := Result(0, Some(GetFailed));
      } else {
        var claim := ClaimOf(name, got.value);
        if claim.None? {
          result := Remove(name);
        } else {
          result := WithProject(client, name, got.value, claim.value);
        }
      }
    }

    /** From the read of the project on. */
    method WithProject(
        client: Reads<string, Secret>, name: string, secret: Secret, claim: Claim) returns (result: Result)
      requires store.Valid() && CheckSecret(name, secret) == Some(claim)
      modifies store
      ensures Ended(old(store.contents), name,
          Follow(Openidmeta.Reconciler(libs, resyncPeriod), client, name, secret, [], MAX_READS), result)
    {
      var project := client.project(claim.project);
      if project.NotFound? { result := Remove(name); return; }
      if project.Failed? { return Result(0, Some(GetFailed)); }
      if project.value.namespace == None { result := Remove(name); return; }
      if claim.shootNamespace != project.value.namespace.value { result := Remove(name); return; }
      assert [] + [ProjectIs(Some(project.value))] == [ProjectIs(Some(project.value))];
      result := WithShoot(client, name, secret, claim, project.value);
    }

    /** From the read of the shoot on. */
    method WithShoot(
        client: Reads<string, Secret>, name: string, secret: Secret, claim: Claim, project: Project)
        returns (result: Result)
      requires store.Valid() && CheckSecret(name, secret) == Some(claim) && CheckProject(claim, Some(project))
      modifies store
      ensures Ended(old(store.contents), name,
                    Follow(Openidmeta.Reconciler(libs, resyncPeriod), client, name, secret, [ProjectIs(Some(project))],
                        MAX_READS - 1), result)
    {
      var shoot := client.shoot(NamespacedName(claim.shootNamespace, claim.shootName));
      if shoot.NotFound? { result := Remove(name); return; }
      if shoot.Failed? { return Result(0, Some(GetFailed)); }
      ghost var seen := [ProjectIs(Some(project))] + [ShootIs(Some(shoot.value))];
      assert NextStep(libs, name, secret, seen) ==
          Done(if CheckShoot(claim, Some(shoot.value)) then CheckDocuments(libs, secret) else Drop);
      var accepted := ShootAccepted(claim, shoot.value);
      if !accepted { result := Remove(name); return; }
      result := Publish(name, secret);
    }

    method ShootAccepted(claim: Claim, shoot: Shoot) returns (accepted: bool)
      ensures accepted <==> CheckShoot(claim, Some(shoot))
    {
      if claim.shootUID != shoot.uid { return false; }
      if ANNOTATION_ISSUER !in shoot.annotations
          || shoot.annotations[ANNOTATION_ISSUER] != ISSUER_MANAGED { return false; }
      return true;
    }

    /** The last stretch: the documents are checked and written, or the entry removed. */
    method Publish(name: string, secret: Secret) returns (result: Result)
      requires store.Valid() && HasData(secret, OPENID_CONFIG_KEY) && HasData(secret, JWKS_KEY)
      modifies store
      ensures Ended(old(store.contents), name, CheckDocuments(libs, secret), result)
    {
      var cfg := libs.loadOpenIDConfig(secret.data[OPENID_CONFIG_KEY]);
      if cfg.None? { result := Remove(name); return; }
      if !(HTTPS <= cfg.value.issuer) || !(HTTPS <= cfg.value.jwksURI) { result := Remove(name); return; }

      var keySet := libs.loadKeySet(secret.data[JWKS_KEY]);
      if keySet.Unparsable? { result := Remove(name); return; }
      if keySet.NilKeySet? { return Result(0, Some(Panicked)); }
      for i := 0 to |keySet.keys|
        invariant AllUsable(keySet.keys[..i])
        invariant store.Valid() && store.contents == old(store.contents)
      {
        var k := keySet.keys[i];
        if !k.isPublic { result := Remove(name); return; }
        if !k.valid { result := Remove(name); return; }
      }

      WriteDocuments(name, secret.data[OPENID_CONFIG_KEY], secret.data[JWKS_KEY]);
      result := Result(resyncPeriod, None);
    }

    method WriteDocuments(name: string, config: Bytes, jwks: Bytes)
      requires store.Valid()
      modifies store
      ensures store.Valid() && store.contents == old(store.contents)[name := Stores.MetadataOf(config, jwks)]
    {
      var c := Stores.FromBytes(config);
      var j := Stores.FromBytes(jwks);
      var data := Stores.Metadata(c, j);
      assert Stores.Value(data) == Stores.MetadataOf(config, jwks);
      assert store.Valid() && store.contents == old(store.contents);
      store.Write(name, data);
    }
  }

  /** On an unchanging cache the reconcile concludes what `Decide` says. */
  lemma ConcludeDecides(libs: Libs, resync: nat, secrets: map<string, Secret>, w: World, name: string)
    ensures Conclude(Openidmeta.Reconciler(libs, resync), CacheReads(secrets, w), name) ==
        Decide(libs, w, name, Lookup(secrets, name))
  {
    var prog, client := Openidmeta.Reconciler(libs, resync), CacheReads(secrets, w);
    if name in secrets && CheckSecret(name, secrets[name]).Some? {
      var secret := secrets[name];
      var claim := CheckSecret(name, secret).value;
      var project := ProjectIs(Lookup(w.projects, claim.project));
      assert Follow(prog, client, name, secret, [], 3) == Follow(prog, client, name, secret, [project], 2) by {
        assert [] + [project] == [project];
      }
      if CheckProject(claim, project.project) {
        var key := NamespacedName(claim.shootNamespace, claim.shootName);
        var shoot := ShootIs(Lookup(w.shoots, key));
        assert Follow(prog, client, name, secret, [project], 2) ==
            Follow(prog, client, name, secret, [project, shoot], 1) by {
          assert [project] + [shoot] == [project, shoot];
        }
      }
    }
  }
}
