// operatorapi/operator_tenants_helper.go: the delete-then-create loops over a tenant's secrets.
module TenantSecrets {
  import opened Cluster
  import opened Text
  import opened Wrappers

  datatype TenantSecret = TenantSecret(name: string, content: map<string, string>)
  datatype CertificateReference = CertificateReference(name: string, kind: string)
  datatype KeyPair = KeyPair(crt: Option<string>, key: Option<string>)

  datatype ReplaceError = EmptyCertificate | BadEncoding | CreateFailed

  // Between two moments only secrets were deleted and created: no pod was restarted.
  ghost predicate OnlySecretEvents(before: seq<Event>, after: seq<Event>) {
    && before <= after
    && forall k | |before| <= k < |after| :: !after[k].Restarted?
  }

  // Plain secrets.

  method ReplaceSecret(client: Client, id: SecretId, secret: Secret) returns (created: bool)
    modifies client`secrets, client`events, client`faulty
    ensures old(client.faulty) ==> client.faulty
    ensures created ==> client.secrets == old(client.secrets)[id := secret]
    ensures !created ==> client.secrets == old(client.secrets) || client.secrets == old(client.secrets) - {id}
    ensures !created ==> client.faulty
  {
    // an error of the deletion is logged and ignored
    var deleted := client.DeleteSecret(id);
    created := client.CreateSecret(id, secret);
    assert created ==> client.secrets == old(client.secrets)[id := secret];
  }

  predicate Kept(s: TenantSecret) { |s.content| > 0 && s.name != "" }

  function OpaqueSecret(s: TenantSecret, tenantName: string): Secret {
    Secret(s.content, "Opaque", tenantName, false)
  }

  // What the loop leaves in the store: of several kept secrets with one name, the last.
  function Stored(ns: string, secrets: seq<TenantSecret>, tenantName: string): map<SecretId, Secret> {
    if secrets == [] then map[] else
      var before := Stored(ns, secrets[..|secrets| - 1], tenantName);
      var last := secrets[|secrets| - 1];
      if Kept(last) then before[SecretId(ns, last.name) := OpaqueSecret(last, tenantName)] else before
  }

  function References(secrets: seq<TenantSecret>): seq<CertificateReference> {
    if secrets == [] then [] else
      var last := secrets[|secrets| - 1];
      References(secrets[..|secrets| - 1]) + if Kept(last) then [CertificateReference(last.name, "Opaque")] else []
  }

  // The store after the entries done so far, with the entry at id possibly deleted but not yet created.
  ghost predicate StoppedAt(before: map<SecretId, Secret>, after: map<SecretId, Secret>, done: map<SecretId, Secret>,
                            id: SecretId) {
    after == before + done || after == (before + done) - {id}
  }

  method CreateOrReplaceSecrets(client: Client, ns: string, secrets: seq<TenantSecret>, tenantName: string)
    returns (r: Result<seq<CertificateReference>, ReplaceError>)
    modifies client`secrets, client`events, client`faulty
    ensures old(client.faulty) ==> client.faulty
    ensures r.Ok? ==> r.value == References(secrets)
                      && client.secrets == old(client.secrets) + Stored(ns, secrets, tenantName)
    ensures r.Err? ==> exists j | 0 <= j < |secrets| && Kept(secrets[j]) ::
              StoppedAt(old(client.secrets), client.secrets, Stored(ns, secrets[..j], tenantName),
                        SecretId(ns, secrets[j].name))
    ensures r.Err? ==> client.faulty
  {
    var k8sSecrets := [];
    for i := 0 to |secrets|
      invariant k8sSecrets == References(secrets[..i])
      invariant client.secrets == old(client.secrets) + Stored(ns, secrets[..i], tenantName)
      invariant old(client.faulty) ==> client.faulty
    {
      OneMoreSecret(old(client.secrets), ns, secrets, tenantName, i);
      var secret := secrets[i];
      if |secret.content| > 0 && secret.name != "" {
        var id := SecretId(ns, secret.name);
        var created := ReplaceSecret(client, id, Secret(secret.content, "Opaque", tenantName, false));
        if !created {
          assert StoppedAt(old(client.secrets), client.secrets, Stored(ns, secrets[..i], tenantName), id);
          return Err(CreateFailed);
        }
        k8sSecrets := k8sSecrets + [CertificateReference(secret.name, "Opaque")];
      }
    }
    assert secrets[..|secrets|] == secrets;
    return Ok(k8sSecrets);
  }

  lemma OneMoreSecret(start: map<SecretId, Secret>, ns: string, secrets: seq<TenantSecret>, tenantName: string, i: nat)
    requires i < |secrets|
    ensures Kept(secrets[i]) ==>
              && References(secrets[..i + 1])
                 == References(secrets[..i]) + [CertificateReference(secrets[i].name, "Opaque")]
              && start + Stored(ns, secrets[..i + 1], tenantName)
                 == (start + Stored(ns, secrets[..i], tenantName))
                    [SecretId(ns, secrets[i].name) := OpaqueSecret(secrets[i], tenantName)]
    ensures !Kept(secrets[i]) ==>
              && References(secrets[..i + 1]) == References(secrets[..i])
              && Stored(ns, secrets[..i + 1], tenantName) == Stored(ns, secrets[..i], tenantName)
  {
    assert secrets[..i + 1][..i] == secrets[..i];
  }

  // The input is kept, and its secret has the id.
  predicate Bears(s: TenantSecret, ns: string, id: SecretId) {
    |s.content| > 0 && s.name != "" && id == SecretId(ns, s.name)
  }

  // A name is stored exactly if some kept input bears it.
  lemma {:induction false} StoredIsKept(ns: string, secrets: seq<TenantSecret>, tenantName: string, id: SecretId)
    ensures id in Stored(ns, secrets, tenantName)
            <==> exists i :: 0 <= i < |secrets| && Bears(secrets[i], ns, id)
  {
    if secrets == [] {
    } else {
      var init, last := secrets[..|secrets| - 1], secrets[|secrets| - 1];
      StoredIsKept(ns, init, tenantName, id);
      if id in Stored(ns, init, tenantName) {
        var i :| 0 <= i < |init| && Bears(init[i], ns, id);
        assert Bears(secrets[i], ns, id);
      } else {
        assert forall i | 0 <= i < |init| :: secrets[i] == init[i];
      }
    }
  }

  // It has the content of the last such input.
  lemma {:induction false} StoredIsLastKept(ns: string, secrets: seq<TenantSecret>, tenantName: string, id: SecretId,
                                            i: nat)
    requires i < |secrets| && Bears(secrets[i], ns, id)
    requires forall j | i < j < |secrets| :: !Bears(secrets[j], ns, id)
    ensures id in Stored(ns, secrets, tenantName)
    ensures Stored(ns, secrets, tenantName)[id] == Secret(secrets[i].content, "Opaque", tenantName, false)
  {
    if i == |secrets| - 1 {
    } else {
      StoredIsLastKept(ns, secrets[..|secrets| - 1], tenantName, id, i);
      assert !Bears(secrets[|secrets| - 1], ns, id);
    }
  }

  // The references are those of the kept inputs, in order.
  lemma {:induction false} ReferencesInOrder(secrets: seq<TenantSecret>, i: nat)
    requires i < |secrets|
    ensures Kept(secrets[i]) ==>
              |References(secrets[..i])| < |References(secrets)|
              && References(secrets)[|References(secrets[..i])|] == CertificateReference(secrets[i].name, "Opaque")
    ensures |References(secrets[..i + 1])| == |References(secrets[..i])| + if Kept(secrets[i]) then 1 else 0
    ensures |References(secrets[..i + 1])| <= |References(secrets)|
  {
    var init := secrets[..|secrets| - 1];
    if i < |init| {
      ReferencesInOrder(init, i);
      assert init[..i] == secrets[..i] && init[..i + 1] == secrets[..i + 1];
    } else {
      assert secrets[..i] == init && secrets[..i + 1] == secrets;
    }
  }

  // External certificates.

  function CertName(secretName: string, i: nat): string { secretName + "-" + Decimal(i) }

  // The numbered names never collide.
  lemma CertNamesDiffer(secretName: string, i: nat, j: nat)
    requires CertName(secretName, i) == CertName(secretName, j)
    ensures i == j
  {
    var prefix := secretName + "-";
    assert CertName(secretName, i)[|prefix|..] == Decimal(i);
    assert CertName(secretName, j)[|prefix|..] == Decimal(j);
    NumeralInvertsDecimal(i);
    NumeralInvertsDecimal(j);
  }

  // A pair whose two halves are present and not empty.
  predicate Filled(keyPair: Option<KeyPair>) {
    && keyPair.Some? && keyPair.value.crt.Some? && keyPair.value.key.Some?
    && keyPair.value.crt.value != "" && keyPair.value.key.value != ""
  }

  predicate Decodable(keyPair: Option<KeyPair>, base64: string -> Option<string>) {
    Filled(keyPair) && base64(keyPair.value.crt.value).Some? && base64(keyPair.value.key.value).Some?
  }

  // The secret of a pair holds each decoded half under its own name.
  function TlsSecret(keyPair: Option<KeyPair>, base64: string -> Option<string>, tenantName: string): (s: Secret)
    requires Decodable(keyPair, base64)
    ensures s.data.Keys == {"tls.crt", "tls.key"}
    ensures base64(keyPair.value.crt.value) == Some(s.data["tls.crt"])
    ensures base64(keyPair.value.key.value) == Some(s.data["tls.key"])
  {
    var crt, key := base64(keyPair.value.crt.value).value, base64(keyPair.value.key.value).value;
    Secret(map["tls.crt" := crt, "tls.key" := key], "kubernetes.io/tls", tenantName, true)
  }

  ghost predicate AllDecodable(keyPairs: seq<Option<KeyPair>>, base64: string -> Option<string>) {
    forall i | 0 <= i < |keyPairs| :: Decodable(keyPairs[i], base64)
  }

  // The secrets the loop creates, one for each pair.
  ghost function CertSecrets(ns: string, keyPairs: seq<Option<KeyPair>>, secretName: string,
                             base64: string -> Option<string>, tenantName: string): map<SecretId, Secret>
    requires AllDecodable(keyPairs, base64)
  {
    if keyPairs == [] then map[] else
      var n := |keyPairs| - 1;
      CertSecrets(ns, keyPairs[..n], secretName, base64, tenantName)
        [SecretId(ns, CertName(secretName, n)) := TlsSecret(keyPairs[n], base64, tenantName)]
  }

  ghost predicate CertsReplaced(before: map<SecretId, Secret>, after: map<SecretId, Secret>, ns: string,
                                keyPairs: seq<Option<KeyPair>>, secretName: string, base64: string -> Option<string>,
                                tenantName: string) {
    AllDecodable(keyPairs, base64) && after == before + CertSecrets(ns, keyPairs, secretName, base64, tenantName)
  }

  lemma {:induction false} EntryOfPair(ns: string, keyPairs: seq<Option<KeyPair>>, secretName: string,
                                       base64: string -> Option<string>, tenantName: string, i: nat)
    requires AllDecodable(keyPairs, base64) && i < |keyPairs|
    ensures var certs := CertSecrets(ns, keyPairs, secretName, base64, tenantName);
      var id := SecretId(ns, CertName(secretName, i));
      id in certs && certs[id] == TlsSecret(keyPairs[i], base64, tenantName)
  {
    var n := |keyPairs| - 1;
    if i == n {
    } else {
      EntryOfPair(ns, keyPairs[..n], secretName, base64, tenantName, i);
      if CertName(secretName, i) == CertName(secretName, n) {
        CertNamesDiffer(secretName, i, n);
      }
    }
  }

  // Every entry holds its own decoded pair, each half under its own name: none overwrites another.
  // The reference in its place bears its name.
  lemma CertHoldsItsPair(before: map<SecretId, Secret>, after: map<SecretId, Secret>, ns: string,
                         keyPairs: seq<Option<KeyPair>>, secretName: string, base64: string -> Option<string>,
                         tenantName: string, i: nat)
    requires CertsReplaced(before, after, ns, keyPairs, secretName, base64, tenantName) && i < |keyPairs|
    ensures keyPairs[i].Some? && keyPairs[i].value.crt.Some? && keyPairs[i].value.key.Some?
    ensures var name, pair := secretName + "-" + Decimal(i), keyPairs[i].value;
      && SecretId(ns, name) in after
      && var secret := after[SecretId(ns, name)];
      && secret.data.Keys == {"tls.crt", "tls.key"}
      && base64(pair.crt.value) == Some(secret.data["tls.crt"])
      && base64(pair.key.value) == Some(secret.data["tls.key"])
      && secret.kind == "kubernetes.io/tls" && secret.tenant == tenantName && secret.immutable
      && CertReferences(secretName, |keyPairs|)[i] == CertificateReference(name, "kubernetes.io/tls")
  {
    EntryOfPair(ns, keyPairs, secretName, base64, tenantName, i);
    assert Decodable(keyPairs[i], base64);
  }

  // No secret under another name is created.
  lemma {:induction false} OnlyCertNames(ns: string, keyPairs: seq<Option<KeyPair>>, secretName: string,
                                         base64: string -> Option<string>, tenantName: string, id: SecretId)
    requires AllDecodable(keyPairs, base64)
    ensures id in CertSecrets(ns, keyPairs, secretName, base64, tenantName) ==>
              exists i :: 0 <= i < |keyPairs| && id == SecretId(ns, CertName(secretName, i))
  {
    if keyPairs == [] {
    } else {
      OnlyCertNames(ns, keyPairs[..|keyPairs| - 1], secretName, base64, tenantName, id);
    }
  }

  function CertReferences(secretName: string, n: nat): seq<CertificateReference> {
    seq(n, i requires 0 <= i < n => CertificateReference(CertName(secretName, i), "kubernetes.io/tls"))
  }

  // One entry failed: it is unchanged or, its old value lost, absent. When no call failed, it is
  // absent if the pair was filled and unchanged otherwise.
  ghost predicate CertFailed(before: map<SecretId, Secret>, after: map<SecretId, Secret>, id: SecretId,
                             keyPair: Option<KeyPair>, base64: string -> Option<string>, error: ReplaceError,
                             faulty: bool) {
    && (error == EmptyCertificate <==> !Filled(keyPair))
    && (error == CreateFailed <==> Decodable(keyPair, base64))
    && (error == CreateFailed ==> faulty)
    && (after == before || (error != EmptyCertificate && after == before - {id}))
    && (!faulty ==> after == if Filled(keyPair) then before - {id} else before)
  }

  // The loop stopped at entry j: the entries before it are replaced and nothing else has changed.
  ghost predicate CertsStopped(before: map<SecretId, Secret>, after: map<SecretId, Secret>, ns: string,
                               keyPairs: seq<Option<KeyPair>>, secretName: string, base64: string -> Option<string>,
                               tenantName: string, j: nat, error: ReplaceError, faulty: bool) {
    && j < |keyPairs|
    && exists done {:trigger CertFailed(done, after, SecretId(ns, CertName(secretName, j)), keyPairs[j], base64,
                                        error, faulty)} ::
         && CertsReplaced(before, done, ns, keyPairs[..j], secretName, base64, tenantName)
         && CertFailed(done, after, SecretId(ns, CertName(secretName, j)), keyPairs[j], base64, error, faulty)
  }

  // With no failing call the loop stops at the first pair that cannot be decoded, and then a secret
  // is lost exactly if that pair was filled and its secret existed.
  lemma LostExactlyWhenFilled(before: map<SecretId, Secret>, after: map<SecretId, Secret>, ns: string,
                              keyPairs: seq<Option<KeyPair>>, secretName: string, base64: string -> Option<string>,
                              tenantName: string, j: nat, error: ReplaceError)
    requires CertsStopped(before, after, ns, keyPairs, secretName, base64, tenantName, j, error, false)
    ensures AllDecodable(keyPairs[..j], base64) && !Decodable(keyPairs[j], base64)
    ensures forall id :: id in before && id !in after
                         <==> id == SecretId(ns, CertName(secretName, j)) && id in before && Filled(keyPairs[j])
  {
    var id := SecretId(ns, CertName(secretName, j));
    var certs := CertSecrets(ns, keyPairs[..j], secretName, base64, tenantName);
    assert after == if Filled(keyPairs[j]) then (before + certs) - {id} else before + certs;
  }

  // The entry at which it stopped is unchanged exactly if its pair was not filled or its secret did
  // not exist.
  lemma StoppedEntryUnchanged(before: map<SecretId, Secret>, after: map<SecretId, Secret>, ns: string,
                              keyPairs: seq<Option<KeyPair>>, secretName: string, base64: string -> Option<string>,
                              tenantName: string, j: nat, error: ReplaceError)
    requires CertsStopped(before, after, ns, keyPairs, secretName, base64, tenantName, j, error, false)
    ensures var id := SecretId(ns, CertName(secretName, j));
      (if id in after then id in before && after[id] == before[id] else id !in before)
      <==> !Filled(keyPairs[j]) || id !in before
  {
    var id := SecretId(ns, CertName(secretName, j));
    var certs := CertSecrets(ns, keyPairs[..j], secretName, base64, tenantName);
    if id in certs {
      OnlyCertNames(ns, keyPairs[..j], secretName, base64, tenantName, id);
      var i :| 0 <= i < j && id == SecretId(ns, CertName(secretName, i));
      CertNamesDiffer(secretName, i, j);
    }
    assert after == if Filled(keyPairs[j]) then (before + certs) - {id} else before + certs;
  }

  method ReplaceCertSecret(client: Client, base64: string -> Option<string>, id: SecretId,
                           keyPair: Option<KeyPair>, tenantName: string)
    returns (failure: Option<ReplaceError>)
    modifies client`secrets, client`events, client`faulty
    ensures old(client.faulty) ==> client.faulty
    ensures failure.None? ==> Decodable(keyPair, base64)
                              && client.secrets == old(client.secrets)[id := TlsSecret(keyPair, base64, tenantName)]
    ensures failure.Some? ==>
              CertFailed(old(client.secrets), client.secrets, id, keyPair, base64, failure.value, client.faulty)
    ensures failure == Some(EmptyCertificate)
            <==> keyPair.None? || keyPair.value.crt.GetOr("") == "" || keyPair.value.key.GetOr("") == ""
    ensures OnlySecretEvents(old(client.events), client.events)
    ensures failure.None? ==> Created(id) in client.events[|old(client.events)|..]
  {
    if keyPair.None? || keyPair.value.crt.None? || keyPair.value.key.None?
       || keyPair.value.crt.value == "" || keyPair.value.key.value == "" {
      return Some(EmptyCertificate);
    }
    // an error of the deletion is logged and ignored
    var deleted := client.DeleteSecret(id);
    var tlsCrt := base64(keyPair.value.crt.value);
    if tlsCrt.None? {
      return Some(BadEncoding);
    }
    var tlsKey := base64(keyPair.value.key.value);
    if tlsKey.None? {
      return Some(BadEncoding);
    }
    var secret := Secret(map["tls.crt" := tlsCrt.value, "tls.key" := tlsKey.value], "kubernetes.io/tls", tenantName,
                         true);
    var created := client.CreateSecret(id, secret);
    if !created {
      return Some(CreateFailed);
    }
    assert client.secrets == old(client.secrets)[id := secret];
    assert client.events[|client.events| - 1] == Created(id);
    return None;
  }

  method CreateOrReplaceExternalCertSecrets(client: Client, base64: string -> Option<string>, ns: string,
                                            keyPairs: seq<Option<KeyPair>>, secretName: string, tenantName: string)
    returns (r: Result<seq<CertificateReference>, ReplaceError>)
    modifies client`secrets, client`events, client`faulty
    ensures old(client.faulty) ==> client.faulty
    ensures r.Ok? ==> r.value == CertReferences(secretName, |keyPairs|)
                      && CertsReplaced(old(client.secrets), client.secrets, ns, keyPairs, secretName, base64,
                                       tenantName)
    ensures r.Err? ==> exists j :: CertsStopped(old(client.secrets), client.secrets, ns, keyPairs, secretName, base64,
                                                tenantName, j, r.error, client.faulty)
    ensures r == Err(CreateFailed) ==> client.faulty
    ensures r.Err? && r.error != CreateFailed ==> !AllDecodable(keyPairs, base64)
    ensures OnlySecretEvents(old(client.events), client.events)
    ensures r.Ok? ==> CertsCreated(old(client.events), client.events, ns, secretName, |keyPairs|)
  {
    var keyPairSecrets := [];
    for i := 0 to |keyPairs|
      invariant keyPairSecrets == CertReferences(secretName, i)
      invariant CertsReplaced(old(client.secrets), client.secrets, ns, keyPairs[..i], secretName, base64, tenantName)
      invariant OnlySecretEvents(old(client.events), client.events)
      invariant old(client.faulty) ==> client.faulty
      invariant CertsCreated(old(client.events), client.events, ns, secretName, i)
    {
      var keyPairSecretName := secretName + "-" + Decimal(i);
      assert keyPairSecretName == CertName(secretName, i);
      var id := SecretId(ns, keyPairSecretName);
      ghost var done, happened := client.secrets, client.events;
      var failure := ReplaceCertSecret(client, base64, id, keyPairs[i], tenantName);
      if failure.Some? {
        assert CertsStopped(old(client.secrets), client.secrets, ns, keyPairs, secretName, base64, tenantName, i,
                            failure.value, client.faulty);
        return Err(failure.value);
      }
      OneMoreCert(old(client.secrets), done, ns, keyPairs, secretName, base64, tenantName, i);
      OneMoreCreated(old(client.events), happened, client.events, ns, secretName, i);
      keyPairSecrets := keyPairSecrets + [CertificateReference(keyPairSecretName, "kubernetes.io/tls")];
    }
    assert keyPairs[..|keyPairs|] == keyPairs;
    return Ok(keyPairSecrets);
  }

  // The first n numbered secrets were created.
  ghost predicate CertsCreated(before: seq<Event>, after: seq<Event>, ns: string, secretName: string, n: nat) {
    && |before| <= |after|
    && forall k | 0 <= k < n :: Created(SecretId(ns, CertName(secretName, k))) in after[|before|..]
  }

  lemma OneMoreCreated(start: seq<Event>, now: seq<Event>, later: seq<Event>, ns: string, secretName: string, n: nat)
    requires OnlySecretEvents(start, now) && OnlySecretEvents(now, later)
    requires CertsCreated(start, now, ns, secretName, n)
    requires Created(SecretId(ns, CertName(secretName, n))) in later[|now|..]
    ensures OnlySecretEvents(start, later) && CertsCreated(start, later, ns, secretName, n + 1)
  {
    LaterEventsKeep(start, now, later);
  }

  lemma LaterEventsKeep(start: seq<Event>, now: seq<Event>, later: seq<Event>)
    requires OnlySecretEvents(start, now) && OnlySecretEvents(now, later)
    ensures OnlySecretEvents(start, later)
    ensures forall e | e in now[|start|..] || e in later[|now|..] :: e in later[|start|..]
  {
    assert later[|start|..] == now[|start|..] + later[|now|..];
  }

  lemma OneMoreCert(before: map<SecretId, Secret>, done: map<SecretId, Secret>, ns: string,
                    keyPairs: seq<Option<KeyPair>>, secretName: string, base64: string -> Option<string>,
                    tenantName: string, i: nat)
    requires i < |keyPairs| && Decodable(keyPairs[i], base64)
    requires CertsReplaced(before, done, ns, keyPairs[..i], secretName, base64, tenantName)
    ensures CertsReplaced(before,
                          done[SecretId(ns, CertName(secretName, i)) := TlsSecret(keyPairs[i], base64, tenantName)],
                          ns, keyPairs[..i + 1], secretName, base64, tenantName)
  {
    var longer, certs := keyPairs[..i + 1], CertSecrets(ns, keyPairs[..i], secretName, base64, tenantName);
    assert longer[..i] == keyPairs[..i];
    AllDecodableExtends(keyPairs, base64, i);
    assert CertSecrets(ns, longer, secretName, base64, tenantName)
           == certs[SecretId(ns, CertName(secretName, i)) := TlsSecret(keyPairs[i], base64, tenantName)];
  }

  lemma AllDecodableExtends(keyPairs: seq<Option<KeyPair>>, base64: string -> Option<string>, i: nat)
    requires i < |keyPairs| && AllDecodable(keyPairs[..i], base64) && Decodable(keyPairs[i], base64)
    ensures AllDecodable(keyPairs[..i + 1], base64)
  {
    forall k | 0 <= k < i ensures Decodable(keyPairs[k], base64) {
      assert keyPairs[..i][k] == keyPairs[k];
    }
  }
}
