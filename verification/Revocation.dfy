/** What a resync period is for: once the cluster has settled, nothing it no longer calls for outlives one period. */
module Revocation {
  import opened Wrappers
  import opened Cluster
  import opened Controller
  import opened Provenance
  import opened Draining
  import Openidmeta
  import OidcSystem
  import Certificates
  import CertificateSystem
  import Keys

  /** The cache `w`, and the object of `k` in it, have been as they are from state `from` to state `to`. */
  ghost predicate Settled<K(!new), O(!new), D(!new)>(w: World, run: Run<K, O, D>, k: K, from: nat, to: nat) {
    && from <= to < |run.states|
    && forall j | from <= j <= to :: run.states[j].world == w
        && Lookup(run.states[j].objs, k) == Lookup(run.states[to].objs, k)
  }

  /** More than a period after the cluster settled, all that is still committed is what it calls for. */
  lemma OnlyDeclaredOutlivesPeriod<K(!new), O(!new), D(!new)>(
      prog: Program<K, O, D>, w: World, decide: (K, Option<O>) -> Outcome<D>, run: Run<K, O, D>, t: nat, i: nat, k: K)
    requires IsRun(prog, run) && Punctual(run, k) && prog.resync > 0 && Decides(prog, w, decide)
    requires Settled(w, run, k, t, i) && run.states[i].now > run.states[t].now + prog.resync
    requires k in run.states[i].own
    ensures decide(k, Lookup(run.states[i].objs, k)) == Keep(run.states[i].own[k])
  {
    var e := CommittedDataIsRecent(prog, run, i, k);
    if e.start < t { TimeOnlyPasses(prog, run, e.start, t); }
    assert Answers(prog, AnswersOf(w), k, e.obj, e.seen) by {
      forall j | 0 <= j < |e.seen|
        ensures prog.next(k, e.obj, e.seen[..j]).Ask? && AnswersOf(w)(prog.next(k, e.obj, e.seen[..j]).query, e.seen[j])
      {
        assert IsRead(prog, run, k, e.obj, e.seen, j, e.gets[j]);
      }
    }
  }

  /**
   * A stored secret that lost its project, shoot, labels or documents is gone within a period: those left are
   * valid.
   */
  lemma InvalidSecretIsGone(
      libs: Openidmeta.Libs, resync: nat, w: World, run: OidcSystem.OidcRun, t: nat, i: nat, name: string)
    requires IsRun(Openidmeta.Reconciler(libs, resync), run) && Prompt(run, name)
        && OidcSystem.NeverNil(libs, run, name) && resync > 0
    requires Settled(w, run, name, t, i) && run.states[i].now > run.states[t].now + resync
    requires name in run.states[i].own
    ensures name in run.states[i].objs && Openidmeta.Valid(libs, w, name, run.states[i].objs[name])
  {
    OidcSystem.NeverNilIsPunctual(libs, resync, run, name);
    OidcSystem.ReconcilerDecides(libs, resync, w);
    OnlyDeclaredOutlivesPeriod(Openidmeta.Reconciler(libs, resync), w, OidcSystem.Verdict(libs, w), run, t, i, name);
    Openidmeta.DecideKeepsExactlyValid(libs, w, name, run.states[i].objs[name], run.states[i].own[name]);
  }

  /** The same for a configmap whose namespace, project, shoot or bundle is no longer in order. */
  lemma InvalidConfigMapIsGone(
      libs: Certificates.Libs, resync: nat, w: World, run: CertificateSystem.CertRun, t: nat, i: nat, req: Request)
    requires IsRun(Certificates.Reconciler(libs, resync), run) && Prompt(run, req) && resync > 0
    requires Settled(w, run, req, t, i) && run.states[i].now > run.states[t].now + resync
    requires req in run.states[i].own
    ensures req in run.states[i].objs && exists p, u :: Certificates.Valid(libs, w, req, run.states[i].objs[req], p, u)
  {
    CertificateSystem.NeverFails(libs, resync, run, req);
    CertificateSystem.ReconcilerDecides(libs, resync, w);
    OnlyDeclaredOutlivesPeriod(Certificates.Reconciler(libs, resync), w, CertificateSystem.Verdict(libs, w), run, t, i,
        req);
    Certificates.DecideKeepsExactlyValid(libs, w, req, run.states[i].objs[req], run.states[i].own[req]);
  }

  /**
   * What the CA endpoint serves: more than a period after the configmaps that write under a data key settled,
   * and as long as any is mapped to it, the bundle stored there is that of a valid configmap.
   */
  lemma InvalidBundleIsGone(
      libs: Certificates.Libs, resync: nat, w: World, run: CertificateSystem.CertRun, t: nat, i: nat, dataKey: string)
      returns (req: Request)
    requires IsRun(Certificates.Reconciler(libs, resync), run) && CertificateSystem.PromptOn(run, dataKey) && resync > 0
    requires i < |run.states| && dataKey in CertificateSystem.IndexAt(run, i).store
    requires dataKey in CertificateSystem.IndexAt(run, i).mapping.Values
    requires forall c, req | CertificateSystem.Writes(run, c, req, dataKey) :: Settled(w, run, req, t, i)
    requires t <= i && run.states[i].now > run.states[t].now + resync
    ensures req in run.states[i].objs
    ensures var cm := run.states[i].objs[req];
            && (exists p, u :: Certificates.Valid(libs, w, req, cm, p, u) && dataKey == Keys.Join(p, u))
            && libs.marshalBundle(cm.data[CA_KEY]) == Some(CertificateSystem.IndexAt(run, i).store[dataKey])
  {
    var e;
    req, e := CertificateSystem.MappedBundleIsRecent(libs, resync, run, i, dataKey);
    var p, u :| CertificateSystem.VettedBy(libs, run, req, e, p, u) && dataKey == Keys.Join(p, u);
    assert Settled(w, run, req, t, i);
    if e.start < t { TimeOnlyPasses(Certificates.Reconciler(libs, resync), run, e.start, t); }
    var cm := run.states[i].objs[req];
    assert Certificates.Owner(w, req, cm, p, u, cm.labels[LABEL_SHOOT_NAME]);
    assert Certificates.Valid(libs, w, req, cm, p, u);
  }
}
