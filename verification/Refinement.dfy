/** The reconcilers as methods and the controller's step machine do the same thing. */
module Refinement {
  import opened Wrappers
  import opened Cluster
  import opened Controller
  import opened Client
  import opened Provenance
  import Openidmeta
  import OidcReconciler
  import Certificates
  import CertificateIndex
  import CertificateReconciler
  import CertificateSystem
  import Keys
  import Stores

  /** The read `q` asks for finds what `a` says. */
  ghost predicate Finds<K, O>(client: Reads<K, O>, q: Query, a: Answer) {
    match q
    case GetNamespace(n) =>
      a.NamespaceIs? && client.namespace(n) == if a.namespace.Some? then Found(a.namespace.value) else NotFound
    case GetProject(p) =>
      a.ProjectIs? && client.project(p) == if a.project.Some? then Found(a.project.value) else NotFound
    case GetShoot(s) =>
      a.ShootIs? && client.shoot(s) == if a.shoot.Some? then Found(a.shoot.value) else NotFound
  }

  /** The read `q` asks for returns an error other than NotFound. */
  ghost predicate Fails<K, O>(client: Reads<K, O>, q: Query) {
    match q
    case GetNamespace(n) => client.namespace(n).Failed?
    case GetProject(p) => client.project(p).Failed?
    case GetShoot(s) => client.shoot(s).Failed?
  }

  /** `client` answers as the worker remembers having been answered, read by read. */
  ghost predicate Recalls<K, O, D>(prog: Program<K, O, D>, client: Reads<K, O>, k: K, obj: O, seen: seq<Answer>) {
    && client.subject(k) == Found(obj)
    && forall j | 0 <= j < |seen| ::
         prog.next(k, obj, seen[..j]).Ask? && Finds(client, prog.next(k, obj, seen[..j]).query, seen[j])
  }

  lemma {:induction false} FollowRecalls<K, O, D>(
      prog: Program<K, O, D>, client: Reads<K, O>, k: K, obj: O, seen: seq<Answer>, j: nat, fuel: nat)
    requires Recalls(prog, client, k, obj, seen) && prog.next(k, obj, seen).Done? && j <= |seen| <= j + fuel
    ensures Follow(prog, client, k, obj, seen[..j], fuel) == prog.next(k, obj, seen).outcome
    decreases fuel
  {
    if j == |seen| {
      assert seen[..j] == seen;
    } else {
      assert seen[..j + 1] == seen[..j] + [seen[j]];
      FollowRecalls(prog, client, k, obj, seen, j + 1, fuel - 1);
    }
  }

  /**
   * A worker of the machine decides what the method concludes from the same answers, even though each
   * answer came from the cache of a different moment.
   */
  lemma WorkerDecidesLikeMethod<K(!new), O(!new), D(!new)>(
      prog: Program<K, O, D>, run: Run<K, O, D>, i: nat, k: K, client: Reads<K, O>)
    requires IsRun(prog, run) && i < |run.states| && k in run.states[i].active && run.states[i].active[k].Decided?
    requires var local := run.states[i].active[k];
             if local.snapshot.None? then client.subject(k) == NotFound
             else Recalls(prog, client, k, local.snapshot.value, local.seen) && |local.seen| <= MAX_READS
    ensures Conclude(prog, client, k) == run.states[i].active[k].outcome
  {
    var local := run.states[i].active[k];
    if local.snapshot.None? {
      AbsentObjectDrops(prog, run, i, k);
    } else {
      var start, gets := Observe(prog, run, i, k, local.snapshot.value, local.seen);
      FollowRecalls(prog, client, k, local.snapshot.value, local.seen, 0, MAX_READS);
    }
  }

  lemma {:induction false} FollowFails<K, O, D>(
      prog: Program<K, O, D>, client: Reads<K, O>, k: K, obj: O, seen: seq<Answer>, j: nat, fuel: nat)
    requires Recalls(prog, client, k, obj, seen) && j <= |seen| <= j + fuel
    requires prog.next(k, obj, seen).Ask? && Fails(client, prog.next(k, obj, seen).query)
    ensures Follow(prog, client, k, obj, seen[..j], fuel) == Fail
    decreases fuel
  {
    if j == |seen| {
      assert seen[..j] == seen;
    } else {
      assert seen[..j + 1] == seen[..j] + [seen[j]];
      FollowFails(prog, client, k, obj, seen, j + 1, fuel - 1);
    }
  }

  /** A read that fails, be it that of the object itself, is where and why the reconcile ends. */
  ghost predicate EndsInFailedRead<K(!new), O(!new), D(!new)>(prog: Program<K, O, D>, client: Reads<K, O>, k: K) {
    || client.subject(k).Failed?
    || exists obj, seen :: Recalls(prog, client, k, obj, seen) && |seen| <= MAX_READS
         && prog.next(k, obj, seen).Ask? && Fails(client, prog.next(k, obj, seen).query)
  }

  lemma FailedReadConcludes<K(!new), O(!new), D(!new)>(prog: Program<K, O, D>, client: Reads<K, O>, k: K)
    requires EndsInFailedRead(prog, client, k)
    ensures Conclude(prog, client, k) == Fail
  {
    if !client.subject(k).Failed? {
      var obj, seen :| Recalls(prog, client, k, obj, seen) && |seen| <= MAX_READS
        && prog.next(k, obj, seen).Ask? && Fails(client, prog.next(k, obj, seen).query);
      FollowFails(prog, client, k, obj, seen, 0, MAX_READS);
    }
  }

  /** A failed read leaves the OIDC store as it was, and the reconcile returns an error. */
  lemma FailedReadKeepsStore(
      libs: Openidmeta.Libs, resync: nat, client: Reads<string, Secret>, name: string,
      stored: map<string, Stores.Content>, result: Result)
    requires var prog := Openidmeta.Reconciler(libs, resync);
             EndsInFailedRead(prog, client, name) && ResultOf(Conclude(prog, client, name), resync, result)
    ensures OidcReconciler.After(stored, name, Conclude(Openidmeta.Reconciler(libs, resync), client, name)) == stored
    ensures result.err.Some? && result.requeueAfter == 0
  {
    FailedReadConcludes(Openidmeta.Reconciler(libs, resync), client, name);
  }

  /** A failed read leaves the certificate index as it was, and the reconcile returns an error. */
  lemma FailedReadKeepsIndex(
      libs: Certificates.Libs, resync: nat, client: Reads<Request, ConfigMap>, req: Request,
      ix: CertificateIndex.Index, result: Result)
    requires var prog := Certificates.Reconciler(libs, resync);
             EndsInFailedRead(prog, client, req) && ResultOf(Conclude(prog, client, req), resync, result)
    ensures CertificateReconciler.After(ix, Keys.MappingKey(req),
        Conclude(Certificates.Reconciler(libs, resync), client, req)) == ix
    ensures result.err.Some? && result.requeueAfter == 0
  {
    FailedReadConcludes(Certificates.Reconciler(libs, resync), client, req);
  }

  // ---------------------------------------------------------------- what becomes of a result

  /** controller-runtime's part: an error re-adds the key later, RequeueAfter after that time, nothing forgets it. */
  function Handled<K(==), O, D>(s: State<K, O, D>, k: K, result: Result): State<K, O, D> {
    if result.err.Some? then s.(retries := s.retries + {k})
    else if result.requeueAfter > 0 then s.(timers := Schedule(s.timers, k, s.now + result.requeueAfter))
    else s
  }

  /** A commit of the machine is the method's return, handled so: the worker is gone, the result acted upon. */
  lemma CommitIsHandled<K, O, D>(prog: Program<K, O, D>, s: State<K, O, D>, k: K, result: Result)
    requires Enabled(s, Commit(k)) && ResultOf(s.active[k].outcome, prog.resync, result)
    ensures var t := Apply(prog, s, Commit(k)); t == Handled(s.(active := s.active - {k}, own := t.own), k, result)
  {
  }

  /** So is a failing read: nothing is committed or removed, and the error makes the key due for a retry. */
  lemma FailedReadIsHandled<K, O, D>(prog: Program<K, O, D>, s: State<K, O, D>, k: K)
    requires Enabled(s, Get(k, true))
    ensures Apply(prog, s, Get(k, true)) == Handled(s.(active := s.active - {k}), k, Result(0, Some(GetFailed)))
    ensures Apply(prog, s, Get(k, true)).own == s.own && k in Apply(prog, s, Get(k, true)).retries
  {
  }

  /** The OIDC store as the method keeps it, for given commits. */
  ghost function StoreOf(own: map<string, Openidmeta.Data>): map<string, Stores.Content> {
    map name | name in own :: Stores.MetadataOf(own[name].config, own[name].jwks)
  }

  /** A commit of the machine changes the store as the method does. */
  lemma OidcCommitIsMethodEffect(
      prog: Program<string, Secret, Openidmeta.Data>, s: State<string, Secret, Openidmeta.Data>, name: string)
    requires Enabled(s, Commit(name))
    ensures StoreOf(Apply(prog, s, Commit(name)).own) ==
        OidcReconciler.After(StoreOf(s.own), name, s.active[name].outcome)
  {
    var after, expected :=
        StoreOf(Apply(prog, s, Commit(name)).own), OidcReconciler.After(StoreOf(s.own), name, s.active[name].outcome);
    forall n ensures Lookup(after, n) == Lookup(expected, n) {}
    SameLookupsSameMap(after, expected);
  }

  /** A commit of the machine changes the index as the method does. */
  lemma CertificateCommitIsMethodEffect(
      prog: CertificateSystem.CertProgram, run: CertificateSystem.CertRun, i: nat, req: Request)
    requires IsRun(prog, run) && i < |run.steps| && run.steps[i] == Commit(req) && Enabled(run.states[i], Commit(req))
    ensures CertificateSystem.IndexAt(run, i + 1) ==
              CertificateReconciler.After(CertificateSystem.IndexAt(run, i), Keys.MappingKey(req),
                  run.states[i].active[req].outcome)
  {
    assert IsStep(prog, run, i);
    CertificateSystem.IndexStep(run, i);
  }
}
