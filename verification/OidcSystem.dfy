/** What the OIDC metadata reconciler guarantees over every run of the controller. */
module OidcSystem {
  import opened Wrappers
  import opened Cluster
  import opened Controller
  import opened Openidmeta
  import opened Provenance
  import opened Draining
  import Handler
  import Keys

  type OidcState = State<string, Secret, Data>
  type OidcRun = Run<string, Secret, Data>

  // ---------------------------------------------------------------- coherence

  /** A stored entry is that of the current secret, which is public and carries these very bytes. */
  ghost predicate Mirrors(secret: Option<Secret>, d: Option<Data>) {
    d.Some? ==>
      && secret.Some? && Lookup(secret.value.labels, LABEL_DISCOVERY_PUBLIC) == Some(LABEL_SERVICE_ACCOUNT_KEYS)
      && Lookup(secret.value.data, OPENID_CONFIG_KEY) == Some(d.value.config)
      && Lookup(secret.value.data, JWKS_KEY) == Some(d.value.jwks)
  }

  lemma KeptDataMirrors(libs: Libs, name: string, secret: Secret, seen: seq<Answer>)
    ensures var next := NextStep(libs, name, secret, seen);
            next.Done? && next.outcome.Keep? ==> Mirrors(Some(secret), Some(next.outcome.data))
  {
  }

  /** Coherence over all interleavings, even when the secret, project or shoot changes mid-reconcile. */
  lemma StoreIsCoherent(libs: Libs, resync: nat, run: OidcRun, i: nat, name: string)
    requires IsRun(Reconciler(libs, resync), run) && i < |run.states|
    requires Idle(Reconciler(libs, resync), run.states[i], name)
    ensures Mirrors(Lookup(run.states[i].objs, name), Lookup(run.states[i].own, name))
  {
    var prog := Reconciler(libs, resync);
    var ok := (q: Query, a: Answer) => true;
    var good := (n: string, secret: Option<Secret>, d: Option<Data>) => Mirrors(secret, d);
    forall n: string, secret: Secret, seen: seq<Answer> | prog.next(n, secret, seen).Done?
      ensures Suits(good, n, Some(secret), prog.next(n, secret, seen).outcome)
    {
      KeptDataMirrors(libs, n, secret, seen);
    }
    IdleKeyIsCoherent(prog, ok, good, run, i, name);
  }

  // ---------------------------------------------------------------- what the store drains to

  /** The verdict on each secret while projects and shoots stay as they are. */
  function Verdict(libs: Libs, w: World): (string, Option<Secret>) -> Outcome<Data> {
    (name, secret) => Decide(libs, w, name, secret)
  }

  /** `seen` holds what the cache `w` answers to the program's questions. */
  ghost predicate AnsweredBy(libs: Libs, w: World, name: string, secret: Secret, seen: seq<Answer>) {
    forall j | 0 <= j < |seen| ::
      && NextStep(libs, name, secret, seen[..j]).Ask?
      && seen[j] == Respond(w, NextStep(libs, name, secret, seen[..j]).query)
  }

  /** With answers from one fixed cache, the step-by-step program reaches the verdict of `Decide`. */
  lemma ProgramDecides(libs: Libs, w: World, name: string, secret: Secret, seen: seq<Answer>)
    requires AnsweredBy(libs, w, name, secret, seen) && NextStep(libs, name, secret, seen).Done?
    ensures NextStep(libs, name, secret, seen).outcome == Decide(libs, w, name, Some(secret))
  {
  }

  lemma ReconcilerDecides(libs: Libs, resync: nat, w: World)
    ensures Decides(Reconciler(libs, resync), w, Verdict(libs, w))
        && Decides(UnfilteredReconciler(libs, resync), w, Verdict(libs, w))
  {
    var prog := Reconciler(libs, resync);
    forall name: string, secret: Secret, seen: seq<Answer>
      | (Answers(prog, AnswersOf(w), name, secret, seen)
          || Answers(UnfilteredReconciler(libs, resync), AnswersOf(w), name, secret, seen))
        && prog.next(name, secret, seen).Done?
      ensures prog.next(name, secret, seen).outcome == Verdict(libs, w)(name, Some(secret))
    {
      ProgramDecides(libs, w, name, secret, seen);
    }
    forall name: string, before: Option<Secret>, after: Option<Secret>
      | (before.Some? || after.Some?) && !prog.passes(EventOf(name, before, after))
      ensures Verdict(libs, w)(name, before) == Verdict(libs, w)(name, after) == Drop
    {
      DroppedEventNeverMatters(libs, name, before, after, w, w);
    }
  }

  /**
   * When projects and shoots stay as they are and every name is idle, the store is exactly what the
   * secrets call for: whatever happened before, in whatever order, filtered or not.
   */
  lemma StoreDrains(libs: Libs, resync: nat, filtered: bool, w: World, run: OidcRun, i: nat)
    requires var prog := if filtered then Reconciler(libs, resync) else UnfilteredReconciler(libs, resync);
             IsRun(prog, run) && i < |run.states| && forall name :: Idle(prog, run.states[i], name)
    requires Fixed(w, run)
    ensures run.states[i].own == Declared(Verdict(libs, w), run.states[i].objs)
  {
    ReconcilerDecides(libs, resync, w);
    var prog := if filtered then Reconciler(libs, resync) else UnfilteredReconciler(libs, resync);
    DrainsToDeclared(prog, w, Verdict(libs, w), run, i);
  }

  /** The event filter loses nothing: a filtered and an unfiltered system drain to the same store. */
  lemma FilterLosesNothing(libs: Libs, resync: nat, w: World, filtered: OidcRun, i: nat, unfiltered: OidcRun, j: nat)
    requires IsRun(Reconciler(libs, resync), filtered) && IsRun(UnfilteredReconciler(libs, resync), unfiltered)
    requires Fixed(w, filtered) && Fixed(w, unfiltered) && i < |filtered.states| && j < |unfiltered.states|
    requires filtered.states[i].objs == unfiltered.states[j].objs
    requires forall name :: Idle(Reconciler(libs, resync), filtered.states[i], name)
    requires forall name :: Idle(UnfilteredReconciler(libs, resync), unfiltered.states[j], name)
    ensures filtered.states[i].own == unfiltered.states[j].own
  {
    StoreDrains(libs, resync, true, w, filtered, i);
    StoreDrains(libs, resync, false, w, unfiltered, j);
  }

  /** No eligible secret has a nil key set. */
  ghost predicate NoneStuck(libs: Libs, w: World, secrets: map<string, Secret>) {
    forall name | name in secrets :: !Stuck(libs, w, name, secrets[name])
  }

  lemma NilKeySetIsOnlyError(libs: Libs, resync: nat, w: World, secrets: map<string, Secret>)
    ensures ErrorFree(Reconciler(libs, resync), MAX_READS, Verdict(libs, w), secrets) <==> NoneStuck(libs, w, secrets)
  {
    forall name | name in secrets
      ensures Verdict(libs, w)(name, Some(secrets[name])) == Fail <==> Stuck(libs, w, name, secrets[name])
      ensures Verdict(libs, w)(name, Some(secrets[name])) != DropAndFail
    {
      DecideFailsExactlyOnNilKeySet(libs, w, name, secrets[name]);
    }
  }

  /** Left to itself the controller drains to exactly that store, on every schedule and within its load. */
  lemma EveryScheduleDrainsStore(libs: Libs, resync: nat, w: World, run: OidcRun, i: nat, j: nat)
    requires IsRun(Reconciler(libs, resync), run) && Fixed(w, run) && i <= j < |run.states|
    requires NoneStuck(libs, w, run.states[i].objs) && forall m | i <= m < j :: Internal(run.steps[m])
    ensures j - i <= Load(Reconciler(libs, resync), MAX_READS, run.states[i])
    ensures (forall step: Step<string, Secret> :: Internal(step) ==> !Enabled(run.states[j], step)) ==>
              run.states[j].own == Declared(Verdict(libs, w), run.states[i].objs)
  {
    ReconcilerDecides(libs, resync, w);
    NilKeySetIsOnlyError(libs, resync, w, run.states[i].objs);
    EveryScheduleDrains(Reconciler(libs, resync), MAX_READS, w, Verdict(libs, w), run, i, j);
  }

  /** Quiescence is within reach if and only if no eligible secret has a nil key set. */
  lemma StoreCanDrainIff(libs: Libs, resync: nat, w: World, run: OidcRun)
    requires IsRun(Reconciler(libs, resync), run) && Fixed(w, run)
    ensures (exists longer :: Continues(Reconciler(libs, resync), run, longer) && Quiet(Last(longer))) <==>
              NoneStuck(libs, w, Last(run).objs)
  {
    ReconcilerDecides(libs, resync, w);
    NilKeySetIsOnlyError(libs, resync, w, Last(run).objs);
    CanDrainIff(Reconciler(libs, resync), MAX_READS, w, Verdict(libs, w), run);
  }

  /** One name alone: decided on the present cluster, if that has been as it is since the name was last due. */
  lemma RequeuedSecretIsDecided(libs: Libs, resync: nat, w: World, run: OidcRun, t: nat, i: nat, name: string)
    requires IsRun(Reconciler(libs, resync), run) && t <= i < |run.states|
    requires forall j | t <= j <= i :: run.states[j].world == w
    requires Fresh(Reconciler(libs, resync), run.states[t], name) && Idle(Reconciler(libs, resync), run.states[i], name)
    ensures name in run.states[i].own <==>
              name in run.states[i].objs && Valid(libs, w, name, run.states[i].objs[name])
    ensures name in run.states[i].own ==>
              var data := run.states[i].objs[name].data;
              run.states[i].own[name] == Data(data[OPENID_CONFIG_KEY], data[JWKS_KEY])
  {
    ReconcilerDecides(libs, resync, w);
    RequeuedKeyIsDecided(Reconciler(libs, resync), w, Verdict(libs, w), run, t, i, name);
    assert Matches(Decide(libs, w, name, Lookup(run.states[i].objs, name)), Lookup(run.states[i].own, name));
    if name in run.states[i].objs {
      var secret := run.states[i].objs[name];
      if name in run.states[i].own { DecideKeepsExactlyValid(libs, w, name, secret, run.states[i].own[name]); }
      if Valid(libs, w, name, secret) {
        DecideKeepsExactlyValid(libs, w, name, secret, Data(secret.data[OPENID_CONFIG_KEY], secret.data[JWKS_KEY]));
      }
    }
  }

  /** And then that is the store it leads to. */
  lemma StoreCanDrain(libs: Libs, resync: nat, w: World, run: OidcRun) returns (longer: OidcRun)
    requires IsRun(Reconciler(libs, resync), run) && Fixed(w, run)
    requires NoneStuck(libs, w, Last(run).objs)
    ensures Continues(Reconciler(libs, resync), run, longer) && Quiet(Last(longer))
    ensures Last(longer).own == Declared(Verdict(libs, w), Last(run).objs)
  {
    ReconcilerDecides(libs, resync, w);
    NilKeySetIsOnlyError(libs, resync, w, Last(run).objs);
    longer := CanDrainToDeclared(Reconciler(libs, resync), MAX_READS, w, Verdict(libs, w), run);
  }

  // ---------------------------------------------------------------- provenance of what is served

  /**
   * One reconcile's worth of facts about a secret: what its labels say, what the project was when it
   * was read, what the shoot was when it was read, and that its documents are fit to publish.
   */
  ghost predicate Vetted(
      libs: Libs, name: string, secret: Secret, atProject: World, atShoot: World, p: string, u: string)
  {
    && !secret.deleting && Lookup(secret.labels, LABEL_DISCOVERY_PUBLIC) == Some(LABEL_SERVICE_ACCOUNT_KEYS)
    && OPENID_CONFIG_KEY in secret.data && secret.data[OPENID_CONFIG_KEY] != []
    && JWKS_KEY in secret.data && secret.data[JWKS_KEY] != []
    && name == Keys.Join(p, u) && Keys.GoodProject(p) && Keys.GoodUID(u)
    && Lookup(secret.labels, LABEL_PROJECT_NAME) == Some(p)
    && p in atProject.projects && atProject.projects[p].namespace.Some?
    && Lookup(secret.labels, LABEL_SHOOT_NAMESPACE) == atProject.projects[p].namespace
    && LABEL_SHOOT_NAME in secret.labels
    && var key := NamespacedName(atProject.projects[p].namespace.value, secret.labels[LABEL_SHOOT_NAME]);
    && key in atShoot.shoots && atShoot.shoots[key].uid == u
    && Lookup(atShoot.shoots[key].annotations, ANNOTATION_ISSUER) == Some(ISSUER_MANAGED)
    && PublishableDocuments(libs, secret.data[OPENID_CONFIG_KEY], secret.data[JWKS_KEY])
  }

  ghost predicate PublishableDocuments(libs: Libs, config: Bytes, jwks: Bytes) {
    && libs.loadOpenIDConfig(config).Some?
    && HTTPS <= libs.loadOpenIDConfig(config).value.issuer && HTTPS <= libs.loadOpenIDConfig(config).value.jwksURI
    && libs.loadKeySet(jwks).KeySet?
    && forall k | k in libs.loadKeySet(jwks).keys :: k.isPublic && k.valid
  }

  lemma KeepMeansVetted(
      libs: Libs, name: string, secret: Secret, seen: seq<Answer>, atProject: World, atShoot: World, d: Data)
    requires NextStep(libs, name, secret, seen) == Done(Keep(d))
    requires |seen| == 2
    requires NextStep(libs, name, secret, []).Ask?
        && seen[0] == Respond(atProject, NextStep(libs, name, secret, []).query)
    requires NextStep(libs, name, secret, seen[..1]).Ask?
        && seen[1] == Respond(atShoot, NextStep(libs, name, secret, seen[..1]).query)
    ensures exists p, u :: Vetted(libs, name, secret, atProject, atShoot, p, u)
    ensures Lookup(secret.data, OPENID_CONFIG_KEY) == Some(d.config) && Lookup(secret.data, JWKS_KEY) == Some(d.jwks)
  {
    var claim := CheckSecret(name, secret).value;
    CheckSecretMeans(name, secret, claim.project, claim.shootUID, claim.shootNamespace, claim.shootName);
    assert Vetted(libs, name, secret, atProject, atShoot, claim.project, claim.shootUID);
  }

  /** An entry of the store was vetted by the reconcile `e`: one object read, then two further reads. */
  ghost predicate VettedBy(libs: Libs, run: OidcRun, name: string, e: Evidence<Secret>, p: string, u: string) {
    && |e.gets| == 2 && e.start < e.gets[0] < e.gets[1] < e.commit < |run.states|
    && BusyFrom(run, name, e.start, e.commit)
    && Lookup(run.states[e.start].objs, name) == Some(e.obj)
    && Vetted(libs, name, e.obj, run.states[e.gets[0]].world, run.states[e.gets[1]].world, p, u)
  }

  lemma WitnessIsVetted(libs: Libs, resync: nat, run: OidcRun, name: string, d: Data, e: Evidence<Secret>)
    requires IsRun(Reconciler(libs, resync), run) && Witness(Reconciler(libs, resync), run, name, d, e)
    ensures exists p, u :: VettedBy(libs, run, name, e, p, u)
    ensures Lookup(e.obj.data, OPENID_CONFIG_KEY) == Some(d.config) && Lookup(e.obj.data, JWKS_KEY) == Some(d.jwks)
  {
    var prog := Reconciler(libs, resync);
    assert |e.seen| > 2 ==> IsRead(prog, run, name, e.obj, e.seen, 2, e.gets[2]);
    assert IsRead(prog, run, name, e.obj, e.seen, 0, e.gets[0]) && IsRead(prog, run, name, e.obj, e.seen, 1, e.gets[1]);
    assert e.seen[..0] == [];
    var atProject, atShoot := run.states[e.gets[0]].world, run.states[e.gets[1]].world;
    KeepMeansVetted(libs, name, e.obj, e.seen, atProject, atShoot, d);
    var p, u :| Vetted(libs, name, e.obj, atProject, atShoot, p, u);
    assert VettedBy(libs, run, name, e, p, u);
  }

  /** The two documents a store entry answers requests with. */
  datatype Document = OpenIDConfiguration | JWKS

  function Part(doc: Document, d: Data): Bytes {
    if doc.OpenIDConfiguration? then d.config else d.jwks
  }

  /** The Kubernetes API gives every shoot a UID that is a canonical UUID. */
  ghost predicate CanonicalShoots(run: OidcRun) {
    forall i, key | 0 <= i < |run.states| && key in run.states[i].world.shoots ::
      Keys.CanonicalUUID(run.states[i].world.shoots[key].uid)
  }

  /**
   * End to end: in every reachable state, the body of a 200 reply for project `p` and UID `u` is byte for
   * byte a document of a secret that one earlier reconcile vetted for exactly that project and shoot.
   */
  lemma ServedDocumentWasVetted(
      libs: Libs, resync: nat, run: OidcRun, i: nat, doc: Document, acceptsUID: string -> bool, req: Handler.Request)
      returns (e: Evidence<Secret>)
    requires IsRun(Reconciler(libs, resync), run) && CanonicalShoots(run) && i < |run.states|
    requires Handler.Served(run.states[i].own, d => Part(doc, d), acceptsUID, req).status == Handler.STATUS_OK
    ensures e.commit < i && VettedBy(libs, run, Keys.Join(req.project, req.uid), e, req.project, req.uid)
    ensures Lookup(e.obj.data, if doc.OpenIDConfiguration? then OPENID_CONFIG_KEY else JWKS_KEY) ==
        Some(Handler.Served(run.states[i].own, d => Part(doc, d), acceptsUID, req).body)
  {
    var name := Keys.Join(req.project, req.uid);
    e := CommittedDataHasWitness(Reconciler(libs, resync), run, i, name);
    WitnessIsVetted(libs, resync, run, name, run.states[i].own[name], e);
    var p, u :| VettedBy(libs, run, name, e, p, u);
    Keys.CanonicalUUIDIsPlain(u);
    Keys.SplitJoinInverse(p, u, name);
    Keys.SplitFindsJoinedPair(req.project, req.uid);
  }

  /** No secret cached under `name` ever has a key set that decodes to nil. */
  ghost predicate NeverNil(libs: Libs, run: OidcRun, name: string) {
    forall i | 0 <= i < |run.states| && name in run.states[i].objs :: !HasNilKeySet(libs, run.states[i].objs[name])
  }

  lemma NeverNilIsPunctual(libs: Libs, resync: nat, run: OidcRun, name: string)
    requires IsRun(Reconciler(libs, resync), run) && Prompt(run, name) && NeverNil(libs, run, name)
    ensures Punctual(run, name)
  {
    var prog := Reconciler(libs, resync);
    forall i, seen | 0 <= i < |run.states| && name in run.states[i].objs
      ensures prog.next(name, run.states[i].objs[name], seen) != Done(Fail)
    {
      assert !HasNilKeySet(libs, run.states[i].objs[name]);
    }
    PromptIsPunctual(prog, run, name);
  }

  /** The entry of `name` was read, and passed every check, at most one period ago. */
  ghost predicate RecentBy(libs: Libs, resync: nat, run: OidcRun, i: nat, name: string, e: Evidence<Secret>)
    requires i < |run.states| && name in run.states[i].own
  {
    && e.commit < i && (exists p, u :: VettedBy(libs, run, name, e, p, u))
    && Lookup(e.obj.data, OPENID_CONFIG_KEY) == Some(run.states[i].own[name].config)
    && Lookup(e.obj.data, JWKS_KEY) == Some(run.states[i].own[name].jwks)
    && run.states[i].now <= run.states[e.start].now + resync
  }

  /** Bounded staleness: in a prompt run without nil key sets every stored entry is recent. */
  lemma ServedDocumentIsRecent(
      libs: Libs, resync: nat, run: OidcRun, i: nat, name: string) returns (e: Evidence<Secret>)
    requires IsRun(Reconciler(libs, resync), run) && Prompt(run, name) && NeverNil(libs, run, name)
    requires resync > 0 && i < |run.states| && name in run.states[i].own
    ensures RecentBy(libs, resync, run, i, name, e)
  {
    NeverNilIsPunctual(libs, resync, run, name);
    e := CommittedDataIsRecent(Reconciler(libs, resync), run, i, name);
    WitnessIsVetted(libs, resync, run, name, run.states[i].own[name], e);
  }

  /** A worker on `name` that read `secret` and the cache `w`, and nothing else, is bound to fail. */
  ghost predicate BoundToFail(libs: Libs, w: World, name: string, secret: Secret, local: Local<Secret, Data>) {
    match local
    case Begun => true
    case Reading(obj, seen) => obj == secret && AnsweredBy(libs, w, name, secret, seen)
    case Decided(_, _, outcome) => outcome == Fail
  }

  lemma FailingWorkerStaysBound(libs: Libs, w: World, name: string, secret: Secret, s: OidcState)
    requires Decide(libs, w, name, Some(secret)) == Fail && s.world == w && Lookup(s.objs, name) == Some(secret)
    requires name in s.active && !s.active[name].Decided? && BoundToFail(libs, w, name, secret, s.active[name])
    ensures BoundToFail(libs, w, name, secret, AfterGet(Reconciler(libs, 0), s, name))
  {
    if s.active[name].Reading? {
      var seen := s.active[name].seen;
      if NextStep(libs, name, secret, seen).Ask? {
        var more := seen + [Respond(w, NextStep(libs, name, secret, seen).query)];
        forall j | 0 <= j < |more|
          ensures NextStep(libs, name, secret, more[..j]).Ask?
              && more[j] == Respond(w, NextStep(libs, name, secret, more[..j]).query)
        {
          assert more[..j] == if j < |seen| then seen[..j] else seen;
        }
        if NextStep(libs, name, secret, more).Done? { ProgramDecides(libs, w, name, secret, more); }
      } else {
        ProgramDecides(libs, w, name, secret, seen);
      }
    } else if NextStep(libs, name, secret, []).Done? {
      ProgramDecides(libs, w, name, secret, []);
    }
  }

  ghost predicate Bound(libs: Libs, w: World, name: string, secret: Secret, s: OidcState) {
    && s.world == w && Lookup(s.objs, name) == Some(secret)
    && (name in s.active ==> BoundToFail(libs, w, name, secret, s.active[name]))
  }

  lemma BoundStep(libs: Libs, resync: nat, w: World, run: OidcRun, i: nat, name: string, secret: Secret)
    requires IsRun(Reconciler(libs, resync), run) && i < |run.steps| && Bound(libs, w, name, secret, run.states[i])
    requires Decide(libs, w, name, Some(secret)) == Fail && name in run.states[i + 1].active
    ensures BoundToFail(libs, w, name, secret, run.states[i + 1].active[name])
  {
    var prog, s := Reconciler(libs, resync), run.states[i];
    WorkerStep(prog, run, i, name);
    if run.steps[i] == Get(name, false) {
      FailingWorkerStaysBound(libs, w, name, secret, s);
      assert AfterGet(prog, s, name) == AfterGet(Reconciler(libs, 0), s, name);
    }
  }

  lemma FrozenStep(libs: Libs, resync: nat, w: World, run: OidcRun, i: nat, name: string, secret: Secret)
    requires IsRun(Reconciler(libs, resync), run) && i < |run.steps| && Bound(libs, w, name, secret, run.states[i])
    ensures Lookup(run.states[i + 1].own, name) == Lookup(run.states[i].own, name)
  {
    var prog := Reconciler(libs, resync);
    if run.steps[i] == Commit(name) {
      CommitStep(prog, run, i, name);
    } else if run.steps[i] == Get(name, true) {
      assert IsStep(prog, run, i);
    } else {
      QuietStep(prog, run, i, name);
    }
  }

  lemma {:induction false} FailingDecisionFreezes(
      libs: Libs, resync: nat, w: World, run: OidcRun, i: nat, j: nat, name: string, secret: Secret)
    requires IsRun(Reconciler(libs, resync), run) && i <= j < |run.states| && name !in run.states[i].active
    requires forall t | i <= t <= j :: run.states[t].world == w && Lookup(run.states[t].objs, name) == Some(secret)
    requires Decide(libs, w, name, Some(secret)) == Fail
    ensures Lookup(run.states[j].own, name) == Lookup(run.states[i].own, name)
        && Bound(libs, w, name, secret, run.states[j])
  {
    assert run.states[j].world == w;
    if i < j {
      FailingDecisionFreezes(libs, resync, w, run, i, j - 1, name, secret);
      FrozenStep(libs, resync, w, run, j - 1, name, secret);
      if name in run.states[j].active { BoundStep(libs, resync, w, run, j - 1, name, secret); }
    }
  }

  /**
   * The staleness bound needs its hypothesis: while the secret is otherwise eligible and its key set decodes
   * to nil, every reconcile fails, and whatever was stored stays stored however much time passes.
   */
  lemma NilKeySetFreezesEntry(
      libs: Libs, resync: nat, w: World, run: OidcRun, i: nat, j: nat, name: string, secret: Secret)
    requires IsRun(Reconciler(libs, resync), run) && i <= j < |run.states| && name !in run.states[i].active
    requires forall t | i <= t <= j :: run.states[t].world == w && Lookup(run.states[t].objs, name) == Some(secret)
    requires Stuck(libs, w, name, secret)
    ensures Lookup(run.states[j].own, name) == Lookup(run.states[i].own, name)
  {
    DecideFailsExactlyOnNilKeySet(libs, w, name, secret);
    FailingDecisionFreezes(libs, resync, w, run, i, j, name, secret);
  }
}
