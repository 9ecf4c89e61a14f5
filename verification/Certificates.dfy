/** The lifetime of an authenticated certificate: authenticatedCertificateExpiry and
    capCredentialLease in packages/apptransport/channel.go. */
module Certificates {
  import opened Bytes
  import opened AccessTable

  // None stands for a nil certificate; notAfter None for the zero time.
  datatype Cert = Cert(notAfter: Option<Time>)
  type Chains = seq<seq<Option<Cert>>>

  predicate Dated(cert: Option<Cert>) {
    cert.Some? && cert.value.notAfter.Some?
  }

  ghost predicate AllDated(chains: Chains) {
    forall i, j | 0 <= i < |chains| && 0 <= j < |chains[i]| :: Dated(chains[i][j])
  }

  // Every certificate of every chain outlives this moment.
  ghost predicate Covered(chains: Chains, expiry: Time) {
    forall i, j | 0 <= i < |chains| && 0 <= j < |chains[i]| && Dated(chains[i][j]) ::
      expiry <= chains[i][j].value.notAfter.value
  }

  ghost predicate Attained(chains: Chains, expiry: Time) {
    exists i, j | 0 <= i < |chains| && 0 <= j < |chains[i]| :: chains[i][j] == Some(Cert(Some(expiry)))
  }

  /** No TLS gives no expiry.  Chains that carry a certificate and only dated ones give the
      earliest NotAfter; anything else gives the present, so that no lease can follow it. */
  ghost predicate IsExpiry(tls: Option<Chains>, now: Time, expiry: Option<Time>) {
    match tls
    case None => expiry == None
    case Some(chains) =>
      expiry.Some? &&
      if AllDated(chains) && exists i :: 0 <= i < |chains| && chains[i] != []
      then Covered(chains, expiry.value) && Attained(chains, expiry.value)
      else expiry.value == now
  }

  function CapCredentialLease(lease: Time, expiry: Option<Time>): (capped: Time)
    ensures capped <= lease && (expiry.Some? ==> capped <= expiry.value)
    ensures capped == lease || expiry == Some(capped)
  {
    if expiry.Some? && lease > expiry.value then expiry.value else lease
  }

  // What the chains read so far say: the first k chains and the first m certificates of the next.
  ghost predicate Earliest(chains: Chains, k: nat, m: nat, expiry: Option<Time>) {
    && (forall i, j | 0 <= i < |chains| && 0 <= j < |chains[i]| && (i < k || (i == k && j < m)) ::
          Dated(chains[i][j]) && expiry.Some? && expiry.value <= chains[i][j].value.notAfter.value)
    && (expiry.Some? ==> Attained(chains, expiry.value))
  }

  method AuthenticatedCertificateExpiry(tls: Option<Chains>, now: Time) returns (expiry: Option<Time>)
    ensures IsExpiry(tls, now, expiry)
  {
    if tls == None { return None; }
    var chains := tls.value;
    if |chains| == 0 { return Some(now); }
    expiry := None;
    for k := 0 to |chains|
      invariant Earliest(chains, k, 0, expiry)
      invariant expiry == None ==> forall i | 0 <= i < k :: chains[i] == []
    {
      var chain := chains[k];
      for m := 0 to |chain|
        invariant Earliest(chains, k, m, expiry)
        invariant expiry == None ==> m == 0 && forall i | 0 <= i < k :: chains[i] == []
      {
        var cert := chain[m];
        if cert == None || cert.value.notAfter == None {
          assert !Dated(chains[k][m]);
          return Some(now);
        }
        var notAfter := cert.value.notAfter.value;
        if expiry == None || notAfter < expiry.value {
          expiry := Some(notAfter);
          assert chains[k][m] == Some(Cert(Some(notAfter)));
        }
      }
    }
    if expiry == None { return Some(now); }
  }

  /** A lease that survives the cap and lies ahead of now was granted on well-formed chains,
      and every certificate outlives it. */
  lemma CappedLease(tls: Chains, now: Time, expiry: Option<Time>, issued: Time)
    requires IsExpiry(Some(tls), now, expiry) && CapCredentialLease(issued, expiry) > now
    ensures AllDated(tls) && Covered(tls, expiry.value) && exists i :: 0 <= i < |tls| && tls[i] != []
  {
  }
}
