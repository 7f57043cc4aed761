/** The serving certificate, reloaded while handshakes go on. */
module DynamicCert {
  import opened Wrappers
  import opened Cluster

  type Chain = seq<Bytes>

  /** A loaded `tls.Certificate`; handshakes are given the object itself. */
  class Certificate {
    const chain: Chain

    constructor (chain: Chain)
      ensures this.chain == chain
    {
      this.chain := chain;
    }
  }

  /** `areEqual`: nested equality, found out one certificate at a time. */
  method AreEqual(cert1: Chain, cert2: Chain) returns (equal: bool)
    ensures equal <==> cert1 == cert2
  {
    if |cert1| != |cert2| { return false; }
    for i := 0 to |cert1|
      invariant cert1[..i] == cert2[..i]
    {
      if cert1[i] != cert2[i] { return false; }
    }
    return true;
  }

  class DynamicCertificate {
    var certificate: Certificate

    /** `New`, after a successful first load. */
    constructor (first: Chain)
      ensures fresh(certificate) && certificate.chain == first
    {
      certificate := new Certificate(first);
    }

    /** `reloadCert`; `load` is what LoadX509KeyPair returns. The result is whether it succeeded. */
    method ReloadCert(load: Option<Chain>) returns (ok: bool)
      modifies this
      ensures ok <==> load.Some?
      ensures if load == None || load == Some(old(certificate).chain) then certificate == old(certificate)
              else fresh(certificate) && certificate.chain == load.value
    {
      if load.None? { return false; }
      var equal := AreEqual(load.value, certificate.chain);
      if equal { return true; }
      certificate := new Certificate(load.value);
      return true;
    }

    method GetCertificate() returns (cert: Certificate)
      ensures cert == certificate
    {
      cert := certificate;
    }
  }

  datatype Event = Reload(load: Option<Chain>) | Handshake

  /** The chain of the last load that succeeded before event `n`. */
  function LastLoaded(first: Chain, events: seq<Event>, n: nat): Chain
    requires n <= |events|
  {
    if n == 0 then first
    else if events[n - 1].Reload? && events[n - 1].load.Some? then events[n - 1].load.value
    else LastLoaded(first, events, n - 1)
  }

  /** Some load between events `i` and `j` succeeded with a chain other than the one loaded before it. */
  ghost predicate ChangesBetween(first: Chain, events: seq<Event>, i: nat, j: nat)
    requires i <= j <= |events|
  {
    exists k | i <= k < j :: LastLoaded(first, events, k) != LastLoaded(first, events, k + 1)
  }

  /** What each handshake in `events` is served, by position. */
  ghost predicate ServedWell(
      first: Chain, events: seq<Event>, n: nat, served: map<nat, Certificate>, current: Certificate)
    requires n <= |events|
  {
    && (forall i: nat :: i in served <==> i < n && events[i].Handshake?)
    && (forall i | i in served :: served[i].chain == LastLoaded(first, events, i))
    && (forall i, j | i in served && j in served && i <= j :: served[i] == served[j] <==>
        !ChangesBetween(first, events, i, j))
    && current.chain == LastLoaded(first, events, n)
    && forall i | i in served :: served[i] == current <==> !ChangesBetween(first, events, i, n)
  }

  lemma ChangesExtend(first: Chain, events: seq<Event>, i: nat, n: nat)
    requires i <= n < |events|
    ensures ChangesBetween(first, events, i, n + 1) <==>
              ChangesBetween(first, events, i, n) || LastLoaded(first, events, n) != LastLoaded(first, events, n + 1)
  {
  }

  lemma AfterReload(
      first: Chain, events: seq<Event>, n: nat, served: map<nat, Certificate>, before: Certificate,
      current: Certificate)
    requires n < |events| && events[n].Reload? && ServedWell(first, events, n, served, before)
    requires current.chain == LastLoaded(first, events, n + 1)
    requires current == before <==> LastLoaded(first, events, n) == LastLoaded(first, events, n + 1)
    requires current != before ==> forall i | i in served :: served[i] != current
    ensures ServedWell(first, events, n + 1, served, current)
  {
    forall i | i in served ensures served[i] == current <==> !ChangesBetween(first, events, i, n + 1) {
      ChangesExtend(first, events, i, n);
    }
  }

  lemma AfterHandshake(first: Chain, events: seq<Event>, n: nat, served: map<nat, Certificate>, current: Certificate)
    requires n < |events| && events[n].Handshake? && ServedWell(first, events, n, served, current)
    ensures ServedWell(first, events, n + 1, served[n := current], current)
  {
    assert LastLoaded(first, events, n + 1) == LastLoaded(first, events, n);
    forall i: nat | i <= n ensures ChangesBetween(first, events, i, n + 1) <==> ChangesBetween(first, events, i, n) {
      ChangesExtend(first, events, i, n);
    }
    assert !ChangesBetween(first, events, n, n);
    var served' := served[n := current];
    forall i, j | i in served' && j in served' && i <= j
      ensures served'[i] == served'[j] <==> !ChangesBetween(first, events, i, j)
    {
      if j == n { assert served'[j] == current; }
    }
  }

  /**
   * Any sequence of reload attempts and handshakes: each handshake gets the chain of the last successful
   * load, and two handshakes get the same object exactly when no load in between changed the chain.
   */
  method Serve(first: Chain, events: seq<Event>) returns (served: map<nat, Certificate>)
    ensures forall i: nat :: i in served <==> i < |events| && events[i].Handshake?
    ensures forall i | i in served :: i < |events| && served[i].chain == LastLoaded(first, events, i)
    ensures forall i, j | i in served && j in served && i <= j ::
              j < |events| && (served[i] == served[j] <==> !ChangesBetween(first, events, i, j))
  {
    var dc := new DynamicCertificate(first);
    served := map[];
    for n := 0 to |events|
      invariant fresh(dc) && ServedWell(first, events, n, served, dc.certificate)
    {
      ghost var before := dc.certificate;
      match events[n] {
        case Reload(load) =>
          var _ := dc.ReloadCert(load);
          AfterReload(first, events, n, served, before, dc.certificate);
        case Handshake =>
          AfterHandshake(first, events, n, served, before);
          var cert := dc.GetCertificate();
          served := served[n := cert];
      }
    }
  }
}
