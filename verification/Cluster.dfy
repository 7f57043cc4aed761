/** The Kubernetes objects the reconcilers read, and the reads themselves. */
module Cluster {
  import opened Wrappers

  newtype Byte = b: int | 0 <= b < 256

  type Bytes = seq<Byte>

  /** A nil Go map reads like an empty one, so labels and data are plain maps. */
  datatype Secret = Secret(deleting: bool, data: map<string, Bytes>, labels: map<string, string>)

  datatype ConfigMap = ConfigMap(deleting: bool, data: map<string, Bytes>, labels: map<string, string>)

  datatype Namespace = Namespace(labels: map<string, string>)

  datatype Project = Project(namespace: Option<string>)

  datatype Shoot = Shoot(uid: string, annotations: map<string, string>)

  /** The key of a request; a Kubernetes namespace name contains no slash. */
  type Request = r: NamespacedName | '/' !in r.namespace witness NamespacedName("", "")

  datatype NamespacedName = NamespacedName(namespace: string, name: string)

  /** The cached objects a reconcile looks up besides the one it was started for. */
  datatype World = World(
    namespaces: map<string, Namespace>,
    projects: map<string, Project>,
    shoots: map<NamespacedName, Shoot>
  )

  /** One `Client.Get`, and what it finds; None stands for a NotFound error. */
  datatype Query =
    | GetNamespace(name: string)
    | GetProject(name: string)
    | GetShoot(key: NamespacedName)

  datatype Answer =
    | NamespaceIs(namespace: Option<Namespace>)
    | ProjectIs(project: Option<Project>)
    | ShootIs(shoot: Option<Shoot>)

  function Respond(w: World, q: Query): Answer {
    match q
    case GetNamespace(name) => NamespaceIs(Lookup(w.namespaces, name))
    case GetProject(name) => ProjectIs(Lookup(w.projects, name))
    case GetShoot(key) => ShootIs(Lookup(w.shoots, key))
  }

  // Label and annotation names and values of the gardener API, and the data keys.
  const LABEL_DISCOVERY_PUBLIC := "discovery.gardener.cloud/public"
  const LABEL_SERVICE_ACCOUNT_KEYS := "serviceaccount"
  const LABEL_SHOOT_CA := "shoot-ca"
  const LABEL_UPDATE_RESTRICTION := "gardener.cloud/update-restriction"
  const LABEL_PROJECT_NAME := "project.gardener.cloud/name"
  const LABEL_SHOOT_NAME := "shoot.gardener.cloud/name"
  const LABEL_SHOOT_NAMESPACE := "shoot.gardener.cloud/namespace"
  const LABEL_SHOOT_UID := "shoot.gardener.cloud/uid"
  const ANNOTATION_ISSUER := "authentication.gardener.cloud/issuer"
  const ISSUER_MANAGED := "managed"
  const OPENID_CONFIG_KEY := "openid-config"
  const JWKS_KEY := "jwks"
  const CA_KEY := "ca.crt"
}
