/** `client.Client` as a reconcile meets it: every read finds an object, finds none, or fails. */
module Client {
  import opened Wrappers
  import opened Cluster
  import opened Controller

  datatype GetResult<+T> = Found(value: T) | NotFound | Failed

  /** What each read of one reconcile returns at the moment it is made. */
  datatype Reads<!K, O> = Reads(
    subject: K -> GetResult<O>,
    namespace: string -> GetResult<Namespace>,
    project: string -> GetResult<Project>,
    shoot: NamespacedName -> GetResult<Shoot>
  )

  datatype Error = GetFailed | Panicked | MarshalFailed

  /** `ctrl.Result` and the error beside it. */
  datatype Result = Result(requeueAfter: nat, err: Option<Error>)

  /** What a reconcile returns: an error unless it wrote or removed and is done, the resync period if it wrote. */
  ghost predicate ResultOf<D>(outcome: Outcome<D>, resync: nat, result: Result) {
    && (result.err.None? <==> outcome.Keep? || outcome.Drop?)
    && result.requeueAfter == if outcome.Keep? then resync else 0
  }

  function OptionOf<T>(r: GetResult<T>): Option<T> {
    if r.Found? then Some(r.value) else None
  }

  /** The answer to a question, or None if the read fails. */
  function Reply<K, O>(client: Reads<K, O>, q: Query): Option<Answer> {
    match q
    case GetNamespace(name) =>
      var r := client.namespace(name); if r.Failed? then None else Some(NamespaceIs(OptionOf(r)))
    case GetProject(name) =>
      var r := client.project(name); if r.Failed? then None else Some(ProjectIs(OptionOf(r)))
    case GetShoot(key) =>
      var r := client.shoot(key); if r.Failed? then None else Some(ShootIs(OptionOf(r)))
  }

  /** Where the program ends when its questions are answered by the reads; `fuel` bounds how many it asks. */
  function Follow<K, O, D>(
      prog: Program<K, O, D>, client: Reads<K, O>, k: K, obj: O, seen: seq<Answer>, fuel: nat): Outcome<D>
    decreases fuel
  {
    match prog.next(k, obj, seen)
    case Done(outcome) => outcome
    case Ask(q) =>
      match Reply(client, q)
      case None => Fail
      case Some(answer) => if fuel == 0 then Fail else Follow(prog, client, k, obj, seen + [answer], fuel - 1)
  }

  /** The outcome of a whole reconcile; a failing read ends it in an error that touches nothing. */
  function Conclude<K, O, D>(prog: Program<K, O, D>, client: Reads<K, O>, k: K): Outcome<D> {
    match client.subject(k)
    case Failed => Fail
    case NotFound => Drop
    case Found(obj) => Follow(prog, client, k, obj, [], MAX_READS)
  }

  function FoundIn<K, V>(m: map<K, V>, k: K): GetResult<V> {
    if k in m then Found(m[k]) else NotFound
  }

  /** Reads answered by one unchanging cache. */
  function CacheReads<K, O>(objs: map<K, O>, w: World): Reads<K, O> {
    Reads(k => FoundIn(objs, k), n => FoundIn(w.namespaces, n), p => FoundIn(w.projects, p), s => FoundIn(w.shoots, s))
  }
}
