/** Full sweeps: reconciling a list of requests on an unchanging cluster, in any order, with repeats. */
module Sweep {
  import opened Wrappers
  import opened Cluster
  import opened Controller
  import Draining
  import Openidmeta
  import OidcReconciler
  import OidcSystem
  import Certificates
  import CertificateIndex
  import CertificateReconciler
  import CertificateSystem
  import Keys
  import Stores

  // ---------------------------------------------------------------- OIDC metadata

  type Contents = map<string, Stores.Content>

  /** The store after reconciling `names` from left to right. */
  function SweepSecrets(
      libs: Openidmeta.Libs, w: World, secrets: map<string, Secret>, stored: Contents, names: seq<string>): Contents
  {
    if names == [] then stored
    else
      var last := |names| - 1;
      var name := names[last];
      OidcReconciler.After(SweepSecrets(libs, w, secrets, stored, names[..last]), name,
                           Openidmeta.Decide(libs, w, name, Lookup(secrets, name)))
  }

  function Settled(outcome: Outcome<Openidmeta.Data>, before: Option<Stores.Content>): Option<Stores.Content> {
    match outcome
    case Keep(d) => Some(Stores.MetadataOf(d.config, d.jwks))
    case Fail => before
    case _ => None
  }

  /** Whatever the order and the repeats, a name's entry depends only on whether it was swept. */
  lemma {:induction false} SweepOutcome(
      libs: Openidmeta.Libs, w: World, secrets: map<string, Secret>, stored: Contents, names: seq<string>,
      name: string)
    ensures Lookup(SweepSecrets(libs, w, secrets, stored, names), name) ==
              if name in names then Settled(Openidmeta.Decide(libs, w, name, Lookup(secrets, name)),
                  Lookup(stored, name))
              else Lookup(stored, name)
  {
    if names != [] {
      var last := |names| - 1;
      SweepOutcome(libs, w, secrets, stored, names[..last], name);
      assert names == names[..last] + [names[last]];
    }
  }

  /** The store the cluster calls for. */
  ghost function Declared(libs: Openidmeta.Libs, w: World, secrets: map<string, Secret>): Contents {
    var data := Draining.Declared(OidcSystem.Verdict(libs, w), secrets);
    map name | name in data :: Stores.MetadataOf(data[name].config, data[name].jwks)
  }

  lemma SweptAgainstDeclared(
      libs: Openidmeta.Libs, w: World, secrets: map<string, Secret>, stored: Contents, names: seq<string>,
      name: string)
    requires name in secrets.Keys + stored.Keys ==> name in names
    ensures var swept, declared, outcome := SweepSecrets(libs, w, secrets, stored, names), Declared(libs, w, secrets),
                                            Openidmeta.Decide(libs, w, name, Lookup(secrets, name));
            && (outcome != Fail || name !in stored ==> Lookup(swept, name) == Lookup(declared, name))
            && (outcome == Fail && name in stored ==> name in swept && name !in declared)
  {
    SweepOutcome(libs, w, secrets, stored, names, name);
  }

  /**
   * A sweep over every secret and every stored key leaves exactly the declared store, if and only if no
   * eligible secret with a nil key set was stored to begin with.
   */
  lemma SweepConvergesIff(
      libs: Openidmeta.Libs, w: World, secrets: map<string, Secret>, stored: Contents, names: seq<string>)
    requires forall name | name in secrets.Keys + stored.Keys :: name in names
    ensures SweepSecrets(libs, w, secrets, stored, names) == Declared(libs, w, secrets) <==>
              forall name | name in stored && name in secrets :: !Openidmeta.Stuck(libs, w, name, secrets[name])
  {
    forall name | name in secrets
      ensures Openidmeta.Decide(libs, w, name, Some(secrets[name])) == Fail <==>
          Openidmeta.Stuck(libs, w, name, secrets[name])
    {
      Openidmeta.DecideFailsExactlyOnNilKeySet(libs, w, name, secrets[name]);
    }
    var swept, declared := SweepSecrets(libs, w, secrets, stored, names), Declared(libs, w, secrets);
    if forall name | name in stored :: Openidmeta.Decide(libs, w, name, Lookup(secrets, name)) != Fail {
      forall name ensures Lookup(swept, name) == Lookup(declared, name) {
        SweptAgainstDeclared(libs, w, secrets, stored, names, name);
      }
      SameLookupsSameMap(swept, declared);
    } else {
      var name :| name in stored && Openidmeta.Decide(libs, w, name, Lookup(secrets, name)) == Fail;
      SweptAgainstDeclared(libs, w, secrets, stored, names, name);
    }
  }

  // ---------------------------------------------------------------- certificates

  /** The entries the configmaps call for. */
  ghost function DeclaredEntries(
      libs: Certificates.Libs, w: World, cms: map<Request, ConfigMap>): map<Request, Certificates.Entry>
  {
    Draining.Declared(CertificateSystem.Verdict(libs, w), cms)
  }

  /** The commits after reconciling `reqs`, as the machine of `CertificateSystem` keeps them. */
  function SweepOwn(
      libs: Certificates.Libs, w: World, cms: map<Request, ConfigMap>, own: map<Request, Certificates.Entry>,
      reqs: seq<Request>)
    : map<Request, Certificates.Entry>
  {
    if reqs == [] then own
    else
      var last := |reqs| - 1;
      var before := SweepOwn(libs, w, cms, own, reqs[..last]);
      match Certificates.Decide(libs, w, reqs[last], Lookup(cms, reqs[last]))
      case Keep(entry) => before[reqs[last] := entry]
      case Fail => before
      case _ => before - {reqs[last]}
  }

  /** The index after reconciling `reqs`. */
  function SweepIndex(
      libs: Certificates.Libs, w: World, cms: map<Request, ConfigMap>, ix: CertificateIndex.Index, reqs: seq<Request>)
      : CertificateIndex.Index
  {
    if reqs == [] then ix
    else
      var last := |reqs| - 1;
      CertificateReconciler.After(SweepIndex(libs, w, cms, ix, reqs[..last]), Keys.MappingKey(reqs[last]),
                                  Certificates.Decide(libs, w, reqs[last], Lookup(cms, reqs[last])))
  }

  /** Every configmap owned goes by the data key `keyOf` assigns it. */
  ghost predicate Follows(own: map<Request, Certificates.Entry>, keyOf: map<Request, string>) {
    forall req | req in own :: req in keyOf && own[req].dataKey == keyOf[req]
  }

  ghost predicate Injective(keyOf: map<Request, string>) {
    forall a, b | a in keyOf && b in keyOf && a != b :: keyOf[a] != keyOf[b]
  }

  lemma DecideNeverFails(libs: Certificates.Libs, w: World, req: Request, cm: Option<ConfigMap>)
    ensures !Certificates.Decide(libs, w, req, cm).Fail?
    ensures Certificates.Decide(libs, w, req, cm).Keep? ==> Certificates.Decide(libs, w, req, cm).data.dataKey != ""
  {
  }

  lemma {:induction false} SweepOwnOutcome(
      libs: Certificates.Libs, w: World, cms: map<Request, ConfigMap>, own: map<Request, Certificates.Entry>,
      reqs: seq<Request>, req: Request)
    ensures Lookup(SweepOwn(libs, w, cms, own, reqs), req) ==
              if req in reqs then Lookup(DeclaredEntries(libs, w, cms), req) else Lookup(own, req)
  {
    if reqs != [] {
      var last := |reqs| - 1;
      SweepOwnOutcome(libs, w, cms, own, reqs[..last], req);
      DecideNeverFails(libs, w, reqs[last], Lookup(cms, reqs[last]));
      assert reqs == reqs[..last] + [reqs[last]];
    }
  }

  /** One reconcile of a sweep keeps the index faithful, as long as data keys follow an injective assignment. */
  lemma SweepStepFaithful(
      libs: Certificates.Libs, w: World, req: Request, cm: Option<ConfigMap>, ix: CertificateIndex.Index,
      own: map<Request, Certificates.Entry>, keyOf: map<Request, string>)
    requires CertificateSystem.Faithful(ix, own) && Follows(own, keyOf) && Injective(keyOf)
    requires Certificates.Decide(libs, w, req, cm).Keep? ==>
        req in keyOf && keyOf[req] == Certificates.Decide(libs, w, req, cm).data.dataKey
    ensures var outcome := Certificates.Decide(libs, w, req, cm);
            var own' := if outcome.Keep? then own[req := outcome.data] else own - {req};
            CertificateSystem.Faithful(CertificateReconciler.After(ix, Keys.MappingKey(req), outcome), own')
                && Follows(own', keyOf)
  {
    DecideNeverFails(libs, w, req, cm);
    var outcome := Certificates.Decide(libs, w, req, cm);
    if outcome.Keep? {
      CertificateSystem.FaithfulAfterKeep(ix, own, req, outcome.data);
    } else {
      CertificateSystem.FaithfulAfterDrop(ix, own, req);
    }
  }

  lemma {:induction false} SweepFaithful(
      libs: Certificates.Libs, w: World, cms: map<Request, ConfigMap>, ix: CertificateIndex.Index,
      own: map<Request, Certificates.Entry>, reqs: seq<Request>, keyOf: map<Request, string>)
    requires CertificateSystem.Faithful(ix, own) && Follows(own, keyOf) && Injective(keyOf)
    requires Follows(DeclaredEntries(libs, w, cms), keyOf)
    ensures CertificateSystem.Faithful(SweepIndex(libs, w, cms, ix, reqs), SweepOwn(libs, w, cms, own, reqs))
    ensures Follows(SweepOwn(libs, w, cms, own, reqs), keyOf)
  {
    if reqs != [] {
      var last := |reqs| - 1;
      var req := reqs[last];
      SweepFaithful(libs, w, cms, ix, own, reqs[..last], keyOf);
      var outcome := Certificates.Decide(libs, w, req, Lookup(cms, req));
      if outcome.Keep? { assert DeclaredEntries(libs, w, cms)[req] == outcome.data; }
      DecideNeverFails(libs, w, req, Lookup(cms, req));
      SweepStepFaithful(libs, w, req, Lookup(cms, req), SweepIndex(libs, w, cms, ix, reqs[..last]),
          SweepOwn(libs, w, cms, own, reqs[..last]), keyOf);
    }
  }

  /**
   * A sweep over every configmap and every mapped request, from a faithful index and with an injective
   * assignment of data keys that nobody leaves, ends with the index of exactly the valid configmaps.
   */
  lemma CertificateSweepConverges(
      libs: Certificates.Libs, w: World, cms: map<Request, ConfigMap>, ix: CertificateIndex.Index,
      own: map<Request, Certificates.Entry>, reqs: seq<Request>, keyOf: map<Request, string>)
    requires CertificateSystem.Faithful(ix, own) && Follows(own, keyOf) && Injective(keyOf)
    requires Follows(DeclaredEntries(libs, w, cms), keyOf)
    requires forall req | req in cms.Keys + own.Keys :: req in reqs
    ensures CertificateSystem.Faithful(SweepIndex(libs, w, cms, ix, reqs), DeclaredEntries(libs, w, cms))
  {
    var swept, declared := SweepOwn(libs, w, cms, own, reqs), DeclaredEntries(libs, w, cms);
    SweepFaithful(libs, w, cms, ix, own, reqs, keyOf);
    forall req: Request ensures Lookup(swept, req) == Lookup(declared, req) {
      SweepOwnOutcome(libs, w, cms, own, reqs, req);
    }
    SameLookupsSameMap(swept, declared);
  }
}
