/** The decisions of the shoot-ca reconciler, and what they amount to. */
module Certificates {
  import opened Wrappers
  import opened Cluster
  import opened Controller
  import Keys

  /** `pem.Block`. */
  datatype Block = Block(kind: string, headers: map<string, string>, bytes: Bytes)

  /** A PEM decoder returns a strictly shorter remainder whenever it finds a block. */
  ghost predicate Shrinks(decode: Bytes -> Option<(Block, Bytes)>) {
    forall b :: decode(b).Some? ==> |decode(b).value.1| < |b|
  }

  type Decoder = decode: Bytes -> Option<(Block, Bytes)> | Shrinks(decode) witness (b: Bytes) => None

  datatype X509 = X509(isCA: bool)

  /** The PEM, X.509 and JSON libraries, as arbitrary deterministic functions. */
  datatype Libs = Libs(decode: Decoder, parseCertificate: Bytes -> Option<X509>, marshalBundle: Bytes -> Option<Bytes>)

  /** What a configmap contributes: the store key of its shoot, and the JSON-wrapped bundle. */
  datatype Entry = Entry(dataKey: string, payload: Bytes)

  predicate IsRelevantConfigMap(cm: ConfigMap) {
    && Lookup(cm.labels, LABEL_DISCOVERY_PUBLIC) == Some(LABEL_SHOOT_CA)
    && Lookup(cm.labels, LABEL_UPDATE_RESTRICTION) == Some("true")
  }

  predicate IsRelevantConfigMapUpdate(before: ConfigMap, after: ConfigMap) {
    IsRelevantConfigMap(after) || IsRelevantConfigMap(before)
  }

  /** `configmapPredicate`: the event filter of the controller. */
  predicate ConfigMapPredicate(e: Event<Request, ConfigMap>) {
    match e
    case Created(_, obj) => IsRelevantConfigMap(obj)
    case Updated(_, before, after) => IsRelevantConfigMapUpdate(before, after)
    case Deleted(_, obj) => IsRelevantConfigMap(obj)
    case Generic(_) => false
  }

  // ---------------------------------------------------------------- the PEM chain

  /** Every block the decoder finds, from the first to the one after which it finds none. */
  function Blocks(decode: Decoder, certs: Bytes): seq<Block>
    decreases |certs|
  {
    match decode(certs)
    case None => []
    case Some((block, rest)) => [block] + Blocks(decode, rest)
  }

  /** What remains to be decoded, at first and after each block found: the decode loop, written out. */
  ghost predicate IsChain(decode: Decoder, data: Bytes, rests: seq<Bytes>) {
    && rests != [] && rests[0] == data
    && forall i {:trigger decode(rests[i])} | 0 <= i < |rests| - 1 ::
         decode(rests[i]).Some? && rests[i + 1] == decode(rests[i]).value.1
  }

  /** Whatever block is found anywhere in the chain is a header-less CERTIFICATE that parses as a CA. */
  ghost predicate OnlyCACertificates(libs: Libs, data: Bytes) {
    forall rests | IsChain(libs.decode, data, rests) && libs.decode(rests[|rests| - 1]).Some? ::
      var block := libs.decode(rests[|rests| - 1]).value.0;
      && block.kind == "CERTIFICATE" && block.headers == map[]
      && libs.parseCertificate(block.bytes).Some? && libs.parseCertificate(block.bytes).value.isCA
  }

  /** The blocks are those found along the chain: one after each remainder. */
  lemma {:induction false} ChainFindsBlock(decode: Decoder, data: Bytes, rests: seq<Bytes>)
    requires IsChain(decode, data, rests) && decode(rests[|rests| - 1]).Some?
    ensures |rests| <= |Blocks(decode, data)|
    ensures decode(rests[|rests| - 1]).value.0 == Blocks(decode, data)[|rests| - 1]
    decreases |rests|
  {
    if |rests| > 1 {
      assert rests[1..][|rests| - 2] == rests[|rests| - 1];
      ChainFindsBlock(decode, rests[1], rests[1..]);
    }
  }

  lemma {:induction false} BlockHasChain(decode: Decoder, data: Bytes, i: nat) returns (rests: seq<Bytes>)
    requires i < |Blocks(decode, data)|
    ensures IsChain(decode, data, rests) && |rests| == i + 1 && decode(rests[i]).Some?
    ensures decode(rests[i]).value.0 == Blocks(decode, data)[i]
    decreases i
  {
    if i == 0 {
      rests := [data];
    } else {
      var rest := decode(data).value.1;
      var tail := BlockHasChain(decode, rest, i - 1);
      rests := [data] + tail;
    }
  }

  lemma AllCABlocksMeans(libs: Libs, data: Bytes)
    ensures AllCABlocks(libs, data) <==> OnlyCACertificates(libs, data)
  {
    if AllCABlocks(libs, data) {
      forall rests | IsChain(libs.decode, data, rests) && libs.decode(rests[|rests| - 1]).Some?
        ensures IsCABlock(libs, libs.decode(rests[|rests| - 1]).value.0)
      {
        ChainFindsBlock(libs.decode, data, rests);
      }
    }
    if OnlyCACertificates(libs, data) {
      forall i | 0 <= i < |Blocks(libs.decode, data)| ensures IsCABlock(libs, Blocks(libs.decode, data)[i]) {
        var rests := BlockHasChain(libs.decode, data, i);
        assert libs.decode(rests[|rests| - 1]).Some?;
      }
    }
  }

  const CERTIFICATE_BLOCK := "CERTIFICATE"

  /** A header-less CERTIFICATE block that parses as a CA certificate. */
  predicate IsCABlock(libs: Libs, block: Block) {
    && block.kind == CERTIFICATE_BLOCK
    && |block.headers| == 0
    && libs.parseCertificate(block.bytes).Some?
    && libs.parseCertificate(block.bytes).value.isCA
  }

  predicate AllCABlocks(libs: Libs, certs: Bytes) {
    forall i | 0 <= i < |Blocks(libs.decode, certs)| :: IsCABlock(libs, Blocks(libs.decode, certs)[i])
  }

  /** The bundle is clean if and only if the decode loop meets CA certificates only, however far it goes. */
  method ScanBundle(libs: Libs, data: Bytes) returns (clean: bool)
    ensures clean <==> OnlyCACertificates(libs, data)
    ensures clean <==> AllCABlocks(libs, data)
  {
    clean := ScanBlocks(libs, data);
    AllCABlocksMeans(libs, data);
  }

  /** The loop itself; true is falling out of it, false one of its four early exits. */
  method ScanBlocks(libs: Libs, data: Bytes) returns (clean: bool)
    ensures clean <==> AllCABlocks(libs, data)
  {
    var certs := data;
    ghost var done: seq<Block> := [];
    while true
      invariant Blocks(libs.decode, data) == done + Blocks(libs.decode, certs)
      invariant forall i | 0 <= i < |done| :: IsCABlock(libs, done[i])
      decreases |certs|
    {
      var decoded := libs.decode(certs);
      if decoded.None? { break; }
      var (block, rest) := decoded.value;
      assert Blocks(libs.decode, data)[|done|] == block;
      if block.kind != CERTIFICATE_BLOCK { return false; }
      if |block.headers| > 0 { return false; }
      var cert := libs.parseCertificate(block.bytes);
      if cert.None? { return false; }
      if !cert.value.isCA { return false; }
      done := done + [block];
      certs := rest;
    }
    return true;
  }

  // ---------------------------------------------------------------- the chain of checks

  /** The checks made before the namespace is read. */
  predicate CheckConfigMap(cm: ConfigMap) {
    && !cm.deleting
    && CA_KEY in cm.data && |cm.data[CA_KEY]| > 0
    && IsRelevantConfigMap(cm)
  }

  function ProjectOf(namespace: Option<Namespace>): Option<string> {
    if namespace.None? then None else Lookup(namespace.value.labels, LABEL_PROJECT_NAME)
  }

  /** The checks made between reading the project and reading the shoot. */
  predicate CheckProject(req: Request, cm: ConfigMap, project: Option<Project>) {
    && project.Some? && project.value.namespace == Some(req.namespace)
    && LABEL_SHOOT_NAME in cm.labels && LABEL_SHOOT_UID in cm.labels
  }

  /** The checks made after the last read. */
  function CheckBundle(libs: Libs, cm: ConfigMap, project: string, shoot: Option<Shoot>): Outcome<Entry>
    requires CheckConfigMap(cm) && LABEL_SHOOT_UID in cm.labels
  {
    var uid, data := cm.labels[LABEL_SHOOT_UID], cm.data[CA_KEY];
    if shoot.None? || uid != shoot.value.uid || !AllCABlocks(libs, data) then Drop
    else match libs.marshalBundle(data)
      case None => DropAndFail
      case Some(payload) => Keep(Entry(Keys.Join(project, uid), payload))
  }

  /** The reconciler as a program: read the namespace, the project, the shoot, then decide. */
  function NextStep(libs: Libs, req: Request, cm: ConfigMap, seen: seq<Answer>): Next<Entry> {
    if !CheckConfigMap(cm) then Done(Drop)
    else if |seen| == 0 then Ask(GetNamespace(req.namespace))
    else if !seen[0].NamespaceIs? || ProjectOf(seen[0].namespace).None? then Done(Drop)
    else
      var project := ProjectOf(seen[0].namespace).value;
      if |seen| == 1 then Ask(GetProject(project))
      else if !seen[1].ProjectIs? || !CheckProject(req, cm, seen[1].project) then Done(Drop)
      else if |seen| == 2 then Ask(GetShoot(NamespacedName(req.namespace, cm.labels[LABEL_SHOOT_NAME])))
      else if !seen[2].ShootIs? then Done(Drop)
      else Done(CheckBundle(libs, cm, project, seen[2].shoot))
  }

  function Reconciler(libs: Libs, resync: nat): Program<Request, ConfigMap, Entry> {
    Program(ConfigMapPredicate, (req, cm, seen) => NextStep(libs, req, cm, seen), resync)
  }

  function UnfilteredReconciler(libs: Libs, resync: nat): Program<Request, ConfigMap, Entry> {
    Reconciler(libs, resync).(passes := e => true)
  }

  /** What a reconcile decides when nothing changes while it runs. */
  function Decide(libs: Libs, w: World, req: Request, cm: Option<ConfigMap>): Outcome<Entry> {
    if cm.None? || !CheckConfigMap(cm.value) then Drop
    else match ProjectOf(Lookup(w.namespaces, req.namespace))
      case None => Drop
      case Some(project) =>
        if !CheckProject(req, cm.value, Lookup(w.projects, project)) then Drop
        else CheckBundle(libs, cm.value, project,
                         Lookup(w.shoots, NamespacedName(req.namespace, cm.value.labels[LABEL_SHOOT_NAME])))
  }

  // ------------------------------------------------ the requirement, stated without the order of checks

  /** Project `p` owns the configmap's namespace, in which the labelled shoot has UID `u`. */
  ghost predicate Owner(w: World, req: Request, cm: ConfigMap, p: string, u: string, shoot: string) {
    var key := NamespacedName(req.namespace, shoot);
    && req.namespace in w.namespaces && Lookup(w.namespaces[req.namespace].labels, LABEL_PROJECT_NAME) == Some(p)
    && p in w.projects && w.projects[p].namespace == Some(req.namespace)
    && Lookup(cm.labels, LABEL_SHOOT_NAME) == Some(shoot) && Lookup(cm.labels, LABEL_SHOOT_UID) == Some(u)
    && key in w.shoots && w.shoots[key].uid == u
  }

  /** Everything a configmap and the cluster must satisfy for project `p` and UID `u`. */
  ghost predicate Valid(libs: Libs, w: World, req: Request, cm: ConfigMap, p: string, u: string) {
    && !cm.deleting
    && Lookup(cm.labels, LABEL_DISCOVERY_PUBLIC) == Some(LABEL_SHOOT_CA)
    && Lookup(cm.labels, LABEL_UPDATE_RESTRICTION) == Some("true")
    && CA_KEY in cm.data && cm.data[CA_KEY] != []
    && (exists shoot :: Owner(w, req, cm, p, u, shoot))
    && OnlyCACertificates(libs, cm.data[CA_KEY])
  }

  /** The chain of checks keeps exactly the valid configmaps: their key, and their bundle wrapped in JSON. */
  lemma DecideKeepsExactlyValid(libs: Libs, w: World, req: Request, cm: ConfigMap, entry: Entry)
    ensures Decide(libs, w, req, Some(cm)) == Keep(entry) <==>
            exists p, u :: Valid(libs, w, req, cm, p, u) && entry.dataKey == Keys.Join(p, u)
                           && libs.marshalBundle(cm.data[CA_KEY]) == Some(entry.payload)
  {
    if CA_KEY in cm.data { AllCABlocksMeans(libs, cm.data[CA_KEY]); }
    if Decide(libs, w, req, Some(cm)) == Keep(entry) {
      var p := ProjectOf(Lookup(w.namespaces, req.namespace)).value;
      assert Owner(w, req, cm, p, cm.labels[LABEL_SHOOT_UID], cm.labels[LABEL_SHOOT_NAME]);
      assert Valid(libs, w, req, cm, p, cm.labels[LABEL_SHOOT_UID]);
    }
    if p, u :| Valid(libs, w, req, cm, p, u) && entry.dataKey == Keys.Join(p, u)
               && libs.marshalBundle(cm.data[CA_KEY]) == Some(entry.payload)
    {
      var shoot :| Owner(w, req, cm, p, u, shoot);
      assert AllCABlocks(libs, cm.data[CA_KEY]);
    }
  }

  /**
   * A reconcile with answered reads returns an error exactly when a valid bundle cannot be marshalled, having
   * removed it.
   */
  lemma DecideErrsExactlyOnMarshal(libs: Libs, w: World, req: Request, cm: ConfigMap)
    ensures Decide(libs, w, req, Some(cm)) != Fail
    ensures Decide(libs, w, req, Some(cm)) == DropAndFail <==>
              (exists p, u :: Valid(libs, w, req, cm, p, u)) && libs.marshalBundle(cm.data[CA_KEY]).None?
  {
    if CA_KEY in cm.data { AllCABlocksMeans(libs, cm.data[CA_KEY]); }
    if Decide(libs, w, req, Some(cm)) == DropAndFail {
      var p := ProjectOf(Lookup(w.namespaces, req.namespace)).value;
      assert Owner(w, req, cm, p, cm.labels[LABEL_SHOOT_UID], cm.labels[LABEL_SHOOT_NAME]);
      assert Valid(libs, w, req, cm, p, cm.labels[LABEL_SHOOT_UID]);
    }
    if p, u :| Valid(libs, w, req, cm, p, u) {
      var shoot :| Owner(w, req, cm, p, u, shoot);
      assert AllCABlocks(libs, cm.data[CA_KEY]);
    }
  }

  /** Text without any PEM block is published as it stands, if all else is in order. */
  lemma BundleWithoutBlocksIsKept(
    libs: Libs, w: World, req: Request, cm: ConfigMap, p: string, u: string, shoot: string, payload: Bytes)
    requires !cm.deleting && CA_KEY in cm.data && cm.data[CA_KEY] != []
    requires Lookup(cm.labels, LABEL_DISCOVERY_PUBLIC) == Some(LABEL_SHOOT_CA)
    requires Lookup(cm.labels, LABEL_UPDATE_RESTRICTION) == Some("true")
    requires Owner(w, req, cm, p, u, shoot)
    requires libs.decode(cm.data[CA_KEY]).None? && libs.marshalBundle(cm.data[CA_KEY]) == Some(payload)
    ensures Decide(libs, w, req, Some(cm)) == Keep(Entry(Keys.Join(p, u), payload))
  {
    AllCABlocksMeans(libs, cm.data[CA_KEY]);
    assert Valid(libs, w, req, cm, p, u);
    DecideKeepsExactlyValid(libs, w, req, cm, Entry(Keys.Join(p, u), payload));
  }

  /** An event passes if and only if the configmap carries both labels after it or did before it. */
  lemma EventPassesIff(req: Request, before: Option<ConfigMap>, after: Option<ConfigMap>)
    requires before.Some? || after.Some?
    ensures ConfigMapPredicate(EventOf(req, before, after)) <==>
              || (before.Some? && Lookup(before.value.labels, LABEL_DISCOVERY_PUBLIC) == Some(LABEL_SHOOT_CA)
                               && Lookup(before.value.labels, LABEL_UPDATE_RESTRICTION) == Some("true"))
              || (after.Some? && Lookup(after.value.labels, LABEL_DISCOVERY_PUBLIC) == Some(LABEL_SHOOT_CA)
                              && Lookup(after.value.labels, LABEL_UPDATE_RESTRICTION) == Some("true"))
    ensures !ConfigMapPredicate(Generic(req))
  {
  }

  /** Relevance is necessary for every write and every error: a dropped event was about removals only. */
  lemma DroppedEventNeverMatters(
      libs: Libs, req: Request, before: Option<ConfigMap>, after: Option<ConfigMap>, w1: World, w2: World)
    requires before.Some? || after.Some?
    requires !ConfigMapPredicate(EventOf(req, before, after))
    ensures Decide(libs, w1, req, before) == Drop && Decide(libs, w2, req, after) == Drop
  {
  }
}
