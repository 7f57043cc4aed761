/** When the staleness bound holds of every timely run, and the run that breaks it when it does not. */
module Staleness {
  import opened Wrappers
  import opened Cluster
  import opened Controller
  import opened Openidmeta
  import opened Provenance
  import opened Draining
  import opened Scenarios
  import opened OidcSystem
  import Keys

  /** Whatever is due for `name` is done before time passes, retries included, and no read fails. */
  ghost predicate Timely(run: OidcRun, name: string) {
    Prompt(run, name) && Attended(run, name)
  }

  /** In every timely run every entry stored under `name` is recent. */
  ghost predicate Bounded(libs: Libs, resync: nat, name: string) {
    forall run: OidcRun, i: nat ::
      IsRun(Reconciler(libs, resync), run) && Timely(run, name) && i < |run.states| && name in run.states[i].own ==>
        exists e :: RecentBy(libs, resync, run, i, name, e)
  }

  /** Some secret of that name can be stored, and one that differs only in its JWKS has a nil key set. */
  ghost predicate Breakable(libs: Libs, name: string) {
    && Keys.Split(name).Some?
    && exists config, jwks, nilJWKS :: PublishableDocuments(libs, config, jwks) && config != [] && jwks != []
         && nilJWKS != [] && libs.loadKeySet(nilJWKS).NilKeySet?
  }

  // ---------------------------------------------------------------- a run that grows step by step

  /** So far the run is timely, and no time has passed while the JWKS of `good` was cached. */
  ghost predicate Aging(libs: Libs, resync: nat, name: string, good: Secret, run: OidcRun) {
    && IsRun(Reconciler(libs, resync), run) && Timely(run, name)
    && forall j | 0 <= j < |run.states| :: Caches(run.states[j], name, good) ==> run.states[j].now == 0
  }

  ghost predicate Caches(s: OidcState, name: string, good: Secret) {
    name in s.objs && Lookup(s.objs[name].data, JWKS_KEY) == Lookup(good.data, JWKS_KEY)
  }

  lemma Grow(libs: Libs, resync: nat, name: string, good: Secret, run: OidcRun, step: Step<string, Secret>)
    returns (longer: OidcRun)
    requires Aging(libs, resync, name, good, run)
    requires Enabled(Last(run), step) && PromptStep(Last(run), step, name) && (step.Tick? ==> CaughtUp(run, name))
    requires var t := Apply(Reconciler(libs, resync), Last(run), step); Caches(t, name, good) ==> t.now == 0
    ensures Aging(libs, resync, name, good, longer)
    ensures Last(longer) == Apply(Reconciler(libs, resync), Last(run), step)
  {
    longer := Extend(Reconciler(libs, resync), run, step);
    PromptExtends(run, longer, name);
    AttendedExtends(Reconciler(libs, resync), run, step, longer, name);
  }

  lemma ReconcileKeepsAging(libs: Libs, resync: nat, name: string, good: Secret, run: OidcRun, longer: OidcRun)
    requires Aging(libs, resync, name, good, run) && Reconciles(Reconciler(libs, resync), run, longer, name)
    requires Caches(Last(run), name, good) ==> Last(run).now == 0
    ensures Aging(libs, resync, name, good, longer) && CaughtUp(longer, name)
  {
    ReconcileIsPrompt(Reconciler(libs, resync), run, longer, name, name);
    ReconcileCatchesUp(Reconciler(libs, resync), run, longer, name);
  }

  /** One whole reconcile of a queued secret, at one moment. */
  lemma ProcessSecret(libs: Libs, resync: nat, name: string, good: Secret, secret: Secret, run: OidcRun)
    returns (longer: OidcRun)
    requires Aging(libs, resync, name, good, run) && CanStart(Last(run), name)
    requires Lookup(Last(run).objs, name) == Some(secret) && (Caches(Last(run), name, good) ==> Last(run).now == 0)
    ensures Aging(libs, resync, name, good, longer) && CaughtUp(longer, name)
    ensures Last(longer) ==
        Settle(Reconciler(libs, resync), Last(run), name, Decide(libs, Last(run).world, name, Some(secret)))
  {
    var prog, w := Reconciler(libs, resync), Last(run).world;
    ReconcilerDecides(libs, resync, w);
    var local;
    longer, local := Process(prog, MAX_READS, Verdict(libs, w), run, name, secret);
    ReconcileKeepsAging(libs, resync, name, good, run, longer);
    CommitSettles(prog, Last(run), name, local);
  }

  // ---------------------------------------------------------------- the run that breaks the bound

  lemma Appear(libs: Libs, resync: nat, w: World, name: string, good: Secret) returns (run: OidcRun)
    requires IsRelevantSecret(good)
    ensures Aging(libs, resync, name, good, run)
    ensures Last(run) == State(map[name := good], w, [], {name}, map[], map[], {}, map[], 0)
  {
    run := Run([State(map[], w, [], {}, map[], map[], {}, map[], 0)], []);
    run := Grow(libs, resync, name, good, run, Change(name, Some(good)));
    run := Grow(libs, resync, name, good, run, Deliver);
  }

  /** `good` is stored, and nothing is outstanding but one resync timer. */
  lemma StoreGood(libs: Libs, resync: nat, w: World, name: string, good: Secret) returns (run: OidcRun)
    requires Valid(libs, w, name, good) && resync > 0
    ensures Aging(libs, resync, name, good, run)
    ensures Last(run) == State(map[name := good], w, [], {}, map[], map[name := resync], {},
                               map[name := Data(good.data[OPENID_CONFIG_KEY], good.data[JWKS_KEY])], 0)
  {
    run := Appear(libs, resync, w, name, good);
    DecideKeepsExactlyValid(libs, w, name, good, Data(good.data[OPENID_CONFIG_KEY], good.data[JWKS_KEY]));
    run := ProcessSecret(libs, resync, name, good, good, run);
  }

  /** Nothing is outstanding but the retry of `bad`, under which the data of `good` is still stored. */
  ghost predicate Lingers(s: OidcState, w: World, name: string, good: Secret, bad: Secret)
    requires HasData(good, OPENID_CONFIG_KEY) && HasData(good, JWKS_KEY)
  {
    && s.world == w && s.objs == map[name := bad] && s.events == [] && s.dirty == {} && s.active == map[]
    && s.timers == map[] && s.retries == {name}
    && s.own == map[name := Data(good.data[OPENID_CONFIG_KEY], good.data[JWKS_KEY])]
  }

  lemma Turn(libs: Libs, resync: nat, name: string, good: Secret, bad: Secret, run: OidcRun) returns (longer: OidcRun)
    requires Aging(libs, resync, name, good, run) && IsRelevantSecret(bad)
    requires Last(run).now == 0 && Last(run).events == [] && Last(run).dirty == {} && name in Last(run).timers
    requires name in Last(run).objs && name !in Last(run).retries
    ensures Aging(libs, resync, name, good, longer)
    ensures Last(longer) ==
        Last(run).(objs := Last(run).objs[name := bad], dirty := {name}, timers := Last(run).timers - {name})
  {
    longer := Grow(libs, resync, name, good, run, Change(name, Some(bad)));
    longer := Grow(libs, resync, name, good, longer, Deliver);
    longer := Grow(libs, resync, name, good, longer, Absorb(name));
  }

  /** The JWKS turns into one with a nil key set; the queued name absorbs its timer, and its reconcile fails. */
  lemma TurnBad(libs: Libs, resync: nat, w: World, name: string, good: Secret, bad: Secret) returns (run: OidcRun)
    requires Valid(libs, w, name, good) && Stuck(libs, w, name, bad) && resync > 0
    ensures Aging(libs, resync, name, good, run) && CaughtUp(run, name)
    ensures Lingers(Last(run), w, name, good, bad) && Last(run).now == 0
  {
    run := StoreGood(libs, resync, w, name, good);
    run := Turn(libs, resync, name, good, bad, run);
    DecideFailsExactlyOnNilKeySet(libs, w, name, bad);
    run := ProcessSecret(libs, resync, name, good, bad, run);
  }

  /** Time passes, and at every moment the name is retried and fails. */
  lemma {:induction false} StayBad(libs: Libs, resync: nat, w: World, name: string, good: Secret, bad: Secret, age: nat)
    returns (run: OidcRun)
    requires Valid(libs, w, name, good) && Stuck(libs, w, name, bad) && resync > 0
    ensures Aging(libs, resync, name, good, run) && CaughtUp(run, name)
    ensures Lingers(Last(run), w, name, good, bad) && Last(run).now == age
  {
    if age == 0 {
      run := TurnBad(libs, resync, w, name, good, bad);
    } else {
      run := StayBad(libs, resync, w, name, good, bad, age - 1);
      run := RetryBad(libs, resync, w, name, good, bad, run);
    }
  }

  lemma RetryBad(libs: Libs, resync: nat, w: World, name: string, good: Secret, bad: Secret, run: OidcRun)
    returns (longer: OidcRun)
    requires Valid(libs, w, name, good) && Stuck(libs, w, name, bad) && resync > 0
    requires Aging(libs, resync, name, good, run) && CaughtUp(run, name) && Lingers(Last(run), w, name, good, bad)
    ensures Aging(libs, resync, name, good, longer) && CaughtUp(longer, name)
    ensures Lingers(Last(longer), w, name, good, bad) && Last(longer).now == Last(run).now + 1
  {
    longer := Grow(libs, resync, name, good, run, Tick);
    longer := Grow(libs, resync, name, good, longer, Retry(name));
    DecideFailsExactlyOnNilKeySet(libs, w, name, bad);
    longer := ProcessSecret(libs, resync, name, good, bad, longer);
  }

  /**
   * Whenever a valid secret can turn into an otherwise eligible one with a nil key set, there is a timely run
   * in which its entry grows as old as one likes: no read failed, an outstanding retry was processed before
   * time passed again, and nothing with the stored JWKS has been cached since time 0.
   */
  lemma EntryOutlivesPeriod(
      libs: Libs, resync: nat, w: World, name: string, good: Secret, bad: Secret, age: nat)
      returns (run: OidcRun, i: nat)
    requires Valid(libs, w, name, good) && Stuck(libs, w, name, bad) && 0 < resync < age
    ensures IsRun(Reconciler(libs, resync), run) && Timely(run, name) && i < |run.states| && name in run.states[i].own
    ensures run.states[i].now == age && Lookup(run.states[i].objs, name) == Some(bad)
    ensures forall j | 0 <= j < |run.states| && Caches(run.states[j], name, good) :: run.states[j].now == 0
    ensures !exists e :: RecentBy(libs, resync, run, i, name, e)
  {
    run := StayBad(libs, resync, w, name, good, bad, age);
    i := |run.states| - 1;
    forall e | RecentBy(libs, resync, run, i, name, e) ensures false {
      var p, u :| VettedBy(libs, run, name, e, p, u);
      assert Caches(run.states[e.start], name, good);
    }
  }

  // ---------------------------------------------------------------- the exact condition

  /** A secret of that name and a cluster in which it is eligible, for any JWKS. */
  lemma EligibleSecret(libs: Libs, name: string, config: Bytes, jwks: Bytes) returns (w: World, secret: Secret)
    requires Keys.Split(name).Some? && config != [] && jwks != [] && libs.loadOpenIDConfig(config).Some?
    requires HTTPS <= libs.loadOpenIDConfig(config).value.issuer && HTTPS <= libs.loadOpenIDConfig(config).value.jwksURI
    ensures Eligible(libs, w, name, secret) && secret.data == map[OPENID_CONFIG_KEY := config, JWKS_KEY := jwks]
    ensures w == ShootWorld(Keys.Split(name).value.0, Keys.Split(name).value.1)
  {
    var (p, u) := Keys.Split(name).value;
    Keys.SplitIffJoined(name, p, u);
    w := ShootWorld(p, u);
    secret := Secret(false, map[OPENID_CONFIG_KEY := config, JWKS_KEY := jwks],
                     map[LABEL_DISCOVERY_PUBLIC := LABEL_SERVICE_ACCOUNT_KEYS, LABEL_PROJECT_NAME := p,
                         LABEL_SHOOT_NAME := "shoot", LABEL_SHOOT_NAMESPACE := "namespace"]);
    assert Owner(w, name, secret, p, u, "namespace", "shoot");
  }

  /** A project with one shoot of a managed issuer. */
  function ShootWorld(p: string, u: string): World {
    World(map[], map[p := Project(Some("namespace"))],
          map[NamespacedName("namespace", "shoot") := Shoot(u, map[ANNOTATION_ISSUER := ISSUER_MANAGED])])
  }

  /** What has been stored once shows that the name and some documents are in order. */
  lemma StoredIsPublishable(libs: Libs, resync: nat, run: OidcRun, i: nat, name: string)
    requires IsRun(Reconciler(libs, resync), run) && i < |run.states| && name in run.states[i].own
    ensures Keys.Split(name).Some?
    ensures exists config, jwks :: PublishableDocuments(libs, config, jwks) && config != [] && jwks != []
  {
    var e := CommittedDataHasWitness(Reconciler(libs, resync), run, i, name);
    WitnessIsVetted(libs, resync, run, name, run.states[i].own[name], e);
    var p, u :| VettedBy(libs, run, name, e, p, u);
    Keys.SplitIffJoined(name, p, u);
    assert PublishableDocuments(libs, e.obj.data[OPENID_CONFIG_KEY], e.obj.data[JWKS_KEY]);
  }

  /**
   * The bound holds of every timely run if and only if no JWKS decodes to a nil key set, or nothing can be
   * stored under the name in the first place.
   */
  lemma BoundedIff(libs: Libs, resync: nat, name: string)
    requires resync > 0
    ensures Bounded(libs, resync, name) <==> !Breakable(libs, name)
  {
    if Breakable(libs, name) {
      var config, jwks, nilJWKS :| PublishableDocuments(libs, config, jwks) && config != [] && jwks != []
        && nilJWKS != [] && libs.loadKeySet(nilJWKS).NilKeySet?;
      var w, good := EligibleSecret(libs, name, config, jwks);
      var w', bad := EligibleSecret(libs, name, config, nilJWKS);
      var run, i := EntryOutlivesPeriod(libs, resync, w, name, good, bad, resync + 1);
    } else {
      forall run: OidcRun, i: nat
        | IsRun(Reconciler(libs, resync), run) && Timely(run, name) && i < |run.states| && name in run.states[i].own
        ensures exists e :: RecentBy(libs, resync, run, i, name, e)
      {
        StoredIsPublishable(libs, resync, run, i, name);
        var e := ServedDocumentIsRecent(libs, resync, run, i, name);
      }
    }
  }
}
