/** The decisions of the shoot-openid-metadata reconciler, and what they amount to. */
module Openidmeta {
  import opened Wrappers
  import opened Cluster
  import opened Controller
  import Keys

  /** What the store keeps for one shoot. */
  datatype Data = Data(config: Bytes, jwks: Bytes)

  datatype OpenIDMetadata = OpenIDMetadata(issuer: string, jwksURI: string)

  datatype Key = Key(isPublic: bool, valid: bool)

  /** Result of decoding a JWKS; JSON `null` decodes without error into a nil key set. */
  datatype KeySet = Unparsable | NilKeySet | KeySet(keys: seq<Key>)

  /** The JSON and JOSE libraries, as arbitrary deterministic functions. */
  datatype Libs = Libs(loadOpenIDConfig: Bytes -> Option<OpenIDMetadata>, loadKeySet: Bytes -> KeySet)

  predicate IsRelevantSecret(secret: Secret) {
    Lookup(secret.labels, LABEL_DISCOVERY_PUBLIC) == Some(LABEL_SERVICE_ACCOUNT_KEYS)
  }

  predicate IsRelevantSecretUpdate(before: Secret, after: Secret) {
    IsRelevantSecret(after) || IsRelevantSecret(before)
  }

  /** `secretPredicate`: the event filter of the controller. */
  predicate SecretPredicate(e: Event<string, Secret>) {
    match e
    case Created(_, obj) => IsRelevantSecret(obj)
    case Updated(_, before, after) => IsRelevantSecretUpdate(before, after)
    case Deleted(_, obj) => IsRelevantSecret(obj)
    case Generic(_) => false
  }

  predicate HasData(secret: Secret, key: string) {
    key in secret.data && |secret.data[key]| > 0
  }

  predicate HasPrefix(s: string, prefix: string) {
    prefix <= s
  }

  const HTTPS := "https://"

  /** What a secret claims about its shoot, once its own checks pass. */
  datatype Claim = Claim(project: string, shootName: string, shootNamespace: string, shootUID: string)

  /** The checks made before the project is read. */
  function CheckSecret(name: string, secret: Secret): Option<Claim> {
    if secret.deleting then None
    else if !HasData(secret, OPENID_CONFIG_KEY) then None
    else if !HasData(secret, JWKS_KEY) then None
    else if !IsRelevantSecret(secret) then None
    else if LABEL_PROJECT_NAME !in secret.labels then None
    else if LABEL_SHOOT_NAME !in secret.labels then None
    else if LABEL_SHOOT_NAMESPACE !in secret.labels then None
    else match Keys.Split(name)
      case None => None
      case Some((project, uid)) =>
        if secret.labels[LABEL_PROJECT_NAME] != project then None
        else Some(Claim(project, secret.labels[LABEL_SHOOT_NAME], secret.labels[LABEL_SHOOT_NAMESPACE], uid))
  }

  /** The check made between reading the project and reading the shoot. */
  predicate CheckProject(claim: Claim, project: Option<Project>) {
    project.Some? && project.value.namespace == Some(claim.shootNamespace)
  }

  predicate CheckShoot(claim: Claim, shoot: Option<Shoot>) {
    && shoot.Some?
    && shoot.value.uid == claim.shootUID
    && Lookup(shoot.value.annotations, ANNOTATION_ISSUER) == Some(ISSUER_MANAGED)
  }

  /** The checks on the published documents, made last. */
  function CheckDocuments(libs: Libs, secret: Secret): Outcome<Data>
    requires HasData(secret, OPENID_CONFIG_KEY) && HasData(secret, JWKS_KEY)
  {
    var config, jwks := secret.data[OPENID_CONFIG_KEY], secret.data[JWKS_KEY];
    match libs.loadOpenIDConfig(config)
    case None => Drop
    case Some(cfg) =>
      if !HasPrefix(cfg.issuer, HTTPS) || !HasPrefix(cfg.jwksURI, HTTPS) then Drop
      else match libs.loadKeySet(jwks)
        case Unparsable => Drop
        case NilKeySet => Fail
        case KeySet(keys) => if AllUsable(keys) then Keep(Data(config, jwks)) else Drop
  }

  predicate AllUsable(keys: seq<Key>) {
    forall i | 0 <= i < |keys| :: keys[i].isPublic && keys[i].valid
  }

  /** The reconciler as a program: read the project, then the shoot, then decide. */
  function NextStep(libs: Libs, name: string, secret: Secret, seen: seq<Answer>): Next<Data> {
    match CheckSecret(name, secret)
    case None => Done(Drop)
    case Some(claim) =>
      if |seen| == 0 then Ask(GetProject(claim.project))
      else if !seen[0].ProjectIs? || !CheckProject(claim, seen[0].project) then Done(Drop)
      else if |seen| == 1 then Ask(GetShoot(NamespacedName(claim.shootNamespace, claim.shootName)))
      else if !seen[1].ShootIs? || !CheckShoot(claim, seen[1].shoot) then Done(Drop)
      else Done(CheckDocuments(libs, secret))
  }

  function Reconciler(libs: Libs, resync: nat): Program<string, Secret, Data> {
    Program(SecretPredicate, (name, secret, seen) => NextStep(libs, name, secret, seen), resync)
  }

  /** The same reconciler behind no filter at all. */
  function UnfilteredReconciler(libs: Libs, resync: nat): Program<string, Secret, Data> {
    Reconciler(libs, resync).(passes := e => true)
  }

  /** What a reconcile decides when nothing changes while it runs. */
  function Decide(libs: Libs, w: World, name: string, secret: Option<Secret>): Outcome<Data> {
    if secret.None? then Drop else
    match CheckSecret(name, secret.value)
    case None => Drop
    case Some(claim) =>
      if !CheckProject(claim, Lookup(w.projects, claim.project)) then Drop
      else if !CheckShoot(claim, Lookup(w.shoots, NamespacedName(claim.shootNamespace, claim.shootName))) then Drop
      else CheckDocuments(libs, secret.value)
  }

  // ------------------------------------------------ the requirement, stated without the order of checks

  ghost predicate Labelled(secret: Secret, name: string, value: string) {
    name in secret.labels && secret.labels[name] == value
  }

  /** Everything a secret named `p--u` and the cluster must satisfy, apart from the key set. */
  ghost predicate Eligible(libs: Libs, w: World, name: string, secret: Secret) {
    && !secret.deleting
    && OPENID_CONFIG_KEY in secret.data && secret.data[OPENID_CONFIG_KEY] != []
    && JWKS_KEY in secret.data && secret.data[JWKS_KEY] != []
    && Labelled(secret, LABEL_DISCOVERY_PUBLIC, LABEL_SERVICE_ACCOUNT_KEYS)
    && (exists p, u, ns, shoot :: Owner(w, name, secret, p, u, ns, shoot))
    && var config := secret.data[OPENID_CONFIG_KEY];
    && libs.loadOpenIDConfig(config).Some?
    && HTTPS <= libs.loadOpenIDConfig(config).value.issuer
    && HTTPS <= libs.loadOpenIDConfig(config).value.jwksURI
  }

  /** Project `p` owns namespace `ns`, in which `shoot` has UID `u` and a managed issuer. */
  ghost predicate Owner(w: World, name: string, secret: Secret, p: string, u: string, ns: string, shoot: string) {
    var key := NamespacedName(ns, shoot);
    && name == Keys.Join(p, u) && Keys.GoodProject(p) && Keys.GoodUID(u)
    && Labelled(secret, LABEL_PROJECT_NAME, p)
    && Labelled(secret, LABEL_SHOOT_NAME, shoot)
    && Labelled(secret, LABEL_SHOOT_NAMESPACE, ns)
    && p in w.projects && w.projects[p].namespace == Some(ns)
    && key in w.shoots && w.shoots[key].uid == u
    && ANNOTATION_ISSUER in w.shoots[key].annotations && w.shoots[key].annotations[ANNOTATION_ISSUER] == ISSUER_MANAGED
  }

  ghost predicate Valid(libs: Libs, w: World, name: string, secret: Secret) {
    && Eligible(libs, w, name, secret)
    && libs.loadKeySet(secret.data[JWKS_KEY]).KeySet?
    && forall k | k in libs.loadKeySet(secret.data[JWKS_KEY]).keys :: k.isPublic && k.valid
  }

  /** The secret carries a JWKS, and it decodes to a nil key set. */
  predicate HasNilKeySet(libs: Libs, secret: Secret) {
    JWKS_KEY in secret.data && secret.data[JWKS_KEY] != [] && libs.loadKeySet(secret.data[JWKS_KEY]).NilKeySet?
  }

  /** Fit to be published but for a nil key set. */
  ghost predicate Stuck(libs: Libs, w: World, name: string, secret: Secret) {
    Eligible(libs, w, name, secret) && HasNilKeySet(libs, secret)
  }

  lemma CheckSecretMeans(name: string, secret: Secret, p: string, u: string, ns: string, shoot: string)
    ensures CheckSecret(name, secret) == Some(Claim(p, shoot, ns, u)) <==>
            && !secret.deleting
            && OPENID_CONFIG_KEY in secret.data && secret.data[OPENID_CONFIG_KEY] != []
            && JWKS_KEY in secret.data && secret.data[JWKS_KEY] != []
            && Labelled(secret, LABEL_DISCOVERY_PUBLIC, LABEL_SERVICE_ACCOUNT_KEYS)
            && Labelled(secret, LABEL_PROJECT_NAME, p) && Labelled(secret, LABEL_SHOOT_NAME, shoot)
            && Labelled(secret, LABEL_SHOOT_NAMESPACE, ns)
            && name == Keys.Join(p, u) && Keys.GoodProject(p) && Keys.GoodUID(u)
  {
    Keys.SplitIffJoined(name, p, u);
  }

  lemma EligibleIffChecksPass(libs: Libs, w: World, name: string, secret: Secret)
    ensures Eligible(libs, w, name, secret) <==>
            && CheckSecret(name, secret).Some?
            && var claim := CheckSecret(name, secret).value;
            && CheckProject(claim, Lookup(w.projects, claim.project))
            && CheckShoot(claim, Lookup(w.shoots, NamespacedName(claim.shootNamespace, claim.shootName)))
            && var cfg := libs.loadOpenIDConfig(secret.data[OPENID_CONFIG_KEY]);
            && cfg.Some? && HasPrefix(cfg.value.issuer, HTTPS) && HasPrefix(cfg.value.jwksURI, HTTPS)
  {
    if Eligible(libs, w, name, secret) {
      var p, u, ns, shoot :| Owner(w, name, secret, p, u, ns, shoot);
      CheckSecretMeans(name, secret, p, u, ns, shoot);
    }
    if CheckSecret(name, secret).Some? {
      var c := CheckSecret(name, secret).value;
      CheckSecretMeans(name, secret, c.project, c.shootUID, c.shootNamespace, c.shootName);
      if CheckProject(c, Lookup(w.projects, c.project)) &&
         CheckShoot(c, Lookup(w.shoots, NamespacedName(c.shootNamespace, c.shootName)))
      {
        assert Owner(w, name, secret, c.project, c.shootUID, c.shootNamespace, c.shootName);
      }
    }
  }

  /** The chain of checks writes exactly the valid secrets, byte for byte, and nothing else. */
  lemma DecideKeepsExactlyValid(libs: Libs, w: World, name: string, secret: Secret, d: Data)
    ensures Decide(libs, w, name, Some(secret)) == Keep(d) <==>
            Valid(libs, w, name, secret) && d == Data(secret.data[OPENID_CONFIG_KEY], secret.data[JWKS_KEY])
  {
    EligibleIffChecksPass(libs, w, name, secret);
    if Eligible(libs, w, name, secret) && libs.loadKeySet(secret.data[JWKS_KEY]).KeySet? {
      var keys := libs.loadKeySet(secret.data[JWKS_KEY]).keys;
      assert AllUsable(keys) <==> forall k | k in keys :: k.isPublic && k.valid;
    }
  }

  /** A reconcile ends in an error without a failing read exactly on an eligible secret with a nil key set. */
  lemma DecideFailsExactlyOnNilKeySet(libs: Libs, w: World, name: string, secret: Secret)
    ensures Decide(libs, w, name, Some(secret)) == Fail <==> Stuck(libs, w, name, secret)
    ensures Decide(libs, w, name, Some(secret)) != DropAndFail
  {
    EligibleIffChecksPass(libs, w, name, secret);
  }

  /** An event passes if and only if the secret carries the public label after it or did before it. */
  lemma EventPassesIff(name: string, before: Option<Secret>, after: Option<Secret>)
    requires before.Some? || after.Some?
    ensures SecretPredicate(EventOf(name, before, after)) <==>
              || (before.Some? && Labelled(before.value, LABEL_DISCOVERY_PUBLIC, LABEL_SERVICE_ACCOUNT_KEYS))
              || (after.Some? && Labelled(after.value, LABEL_DISCOVERY_PUBLIC, LABEL_SERVICE_ACCOUNT_KEYS))
    ensures !SecretPredicate(Generic(name))
  {
  }

  /** Relevance is necessary for every write and every error: a dropped event was about removals only. */
  lemma DroppedEventNeverMatters(
      libs: Libs, name: string, before: Option<Secret>, after: Option<Secret>, w1: World, w2: World)
    requires before.Some? || after.Some?
    requires !SecretPredicate(EventOf(name, before, after))
    ensures Decide(libs, w1, name, before) == Drop && Decide(libs, w2, name, after) == Drop
  {
  }
}
