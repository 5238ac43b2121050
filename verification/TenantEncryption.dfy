// operatorapi/operator_tenants_helper.go: updates of a running tenant's certificates and encryption,
// with the secrets they leave and the order in which pods are restarted, whatever calls fail.
module TenantEncryption {
  import opened Cluster
  import opened Encryption
  import opened KesConfig
  import opened TenantSecrets
  import opened Wrappers

  function ConfigurationSecret(yaml: string, tenantName: string): Secret {
    Secret(map["server-config.yaml" := yaml], "", tenantName, true)
  }

  function ClientCertSecret(files: map<string, string>, tenantName: string): Secret {
    Secret(files, "", tenantName, true)
  }

  ghost predicate Unchanged(before: map<SecretId, Secret>, after: map<SecretId, Secret>, id: SecretId) {
    (id in after <==> id in before) && (id in before ==> after[id] == before[id])
  }

  ghost predicate OnlyTouched(before: map<SecretId, Secret>, after: map<SecretId, Secret>, ids: set<SecretId>) {
    forall id | id !in ids :: Unchanged(before, after, id)
  }

  predicate Compilable(cfg: EncryptionConfiguration, codec: Codec) {
    Compile(cfg, codec).Done? && codec.yaml(Compile(cfg, codec).value.config).Some?
  }

  // What a successful update leaves: the configuration secret with the compiled configuration, and
  // the client secret with exactly the compiled files. With no files, an old client secret whose
  // deletion failed survives.
  ghost predicate KesStored(before: map<SecretId, Secret>, after: map<SecretId, Secret>, configId: SecretId,
                            clientId: SecretId, compiled: Compiled, codec: Codec, tenantName: string) {
    && codec.yaml(compiled.config).Some?
    && configId in after && after[configId] == ConfigurationSecret(codec.yaml(compiled.config).value, tenantName)
    && OnlyTouched(before, after, {configId, clientId})
    && (compiled.files != map[] ==>
          clientId != configId && clientId in after && after[clientId] == ClientCertSecret(compiled.files, tenantName))
    && (compiled.files == map[] && clientId != configId ==> clientId !in after || Unchanged(before, after, clientId))
  }

  method DeleteKesSecrets(client: Client, configId: SecretId, clientId: SecretId) returns (ghost gone: set<SecretId>)
    modifies client`secrets, client`events, client`faulty
    ensures old(client.faulty) ==> client.faulty
    ensures gone <= {configId, clientId} && client.secrets == old(client.secrets) - gone
    ensures configId in client.secrets || clientId in client.secrets ==> client.faulty
    ensures OnlySecretEvents(old(client.events), client.events)
  {
    // errors of the deletions are logged and ignored
    var deletedConfig := client.DeleteSecret(configId);
    var deletedClient := client.DeleteSecret(clientId);
    gone := (if deletedConfig then {configId} else {}) + (if deletedClient then {clientId} else {});
  }

  method CreateKesSecrets(client: Client, codec: Codec, configId: SecretId, clientId: SecretId, compiled: Compiled,
                          tenantName: string)
    returns (failure: Option<KesError>)
    modifies client`secrets, client`events, client`faulty
    ensures old(client.faulty) ==> client.faulty
    ensures failure.None? ==>
              KesStored(old(client.secrets), client.secrets, configId, clientId, compiled, codec, tenantName)
    ensures failure.Some? ==> client.secrets == old(client.secrets)
                              || (compiled.files != map[]
                                  && client.secrets == old(client.secrets)
                                                       [clientId := ClientCertSecret(compiled.files, tenantName)])
    ensures failure != Some(ApproleMissing)
    ensures failure.Some? && configId != clientId && {configId, clientId} !! old(client.secrets).Keys ==>
              client.faulty || codec.yaml(compiled.config).None?
    ensures compiled.files == map[] ==> client.secrets - {configId} == old(client.secrets) - {configId}
    ensures OnlySecretEvents(old(client.events), client.events)
    ensures failure.None? ==> Created(configId) in client.events[|old(client.events)|..]
  {
    if compiled.files != map[] {
      var created := client.CreateSecret(clientId, Secret(compiled.files, "", tenantName, true));
      if !created { return Some(SecretNotCreated); }
    }
    var serverConfigYaml := codec.yaml(compiled.config);
    if serverConfigYaml.None? { return Some(YamlFailed); }
    var secret := Secret(map["server-config.yaml" := serverConfigYaml.value], "", tenantName, true);
    var created := client.CreateSecret(configId, secret);
    if !created { return Some(SecretNotCreated); }
    assert client.events[|client.events| - 1] == Created(configId);
    return None;
  }

  method CreateOrReplaceKesConfigurationSecrets(client: Client, codec: Codec, ns: string, cfg: EncryptionConfiguration,
                                                configName: string, clientCertName: string, tenantName: string)
    returns (r: Outcome<(string, Option<CertificateReference>)>)
    modifies client`secrets, client`events, client`faulty
    ensures old(client.faulty) ==> client.faulty
    ensures r.Done? ==>
              && Compile(cfg, codec).Done?
              && var compiled := Compile(cfg, codec).value;
              && r.value == (configName,
                             if compiled.files != map[] then Some(CertificateReference(clientCertName, "")) else None)
              && KesStored(old(client.secrets), client.secrets, SecretId(ns, configName), SecretId(ns, clientCertName),
                           compiled, codec, tenantName)
    ensures r.NilDereference? <==> Compile(cfg, codec).NilDereference?
    ensures r == Failed(ApproleMissing) <==> Compile(cfg, codec) == Failed(ApproleMissing)
    ensures !client.faulty && configName != clientCertName ==> (r.Done? <==> Compilable(cfg, codec))
    ensures !client.faulty && configName != clientCertName && !r.Done? ==>
              SecretId(ns, configName) !in client.secrets
    ensures !client.faulty && configName != clientCertName && r.Done? && Compile(cfg, codec).value.files == map[] ==>
              SecretId(ns, clientCertName) !in client.secrets
    ensures OnlyTouched(old(client.secrets), client.secrets, {SecretId(ns, configName), SecretId(ns, clientCertName)})
    ensures !r.Done? && configName != clientCertName ==>
              || SecretId(ns, configName) !in client.secrets
              || Unchanged(old(client.secrets), client.secrets, SecretId(ns, configName))
    ensures OnlySecretEvents(old(client.events), client.events)
    ensures r.Done? ==> Created(SecretId(ns, configName)) in client.events[|old(client.events)|..]
  {
    var configId, clientId := SecretId(ns, configName), SecretId(ns, clientCertName);
    ghost var gone := DeleteKesSecrets(client, configId, clientId);
    ghost var happened := client.events;
    var compiled := CompileInPlace(cfg, codec);
    if compiled.NilDereference? { return NilDereference; }
    if compiled.Failed? { return Failed(compiled.error); }
    var failure := CreateKesSecrets(client, codec, configId, clientId, compiled.value, tenantName);
    LaterEventsKeep(old(client.events), happened, client.events);
    if failure.Some? { return Failed(failure.value); }
    var reference := if compiled.value.files != map[] then Some(CertificateReference(clientCertName, "")) else None;
    return Done((configName, reference));
  }

  function SecretName(tenantName: string): string { tenantName + "-secret" }
  function KesConfigName(tenantName: string): string { SecretName(tenantName) + "-kes-configuration" }
  function KesClientCertName(tenantName: string): string { SecretName(tenantName) + "-kes-client-cert" }
  function KesServerCertName(tenantName: string): string { SecretName(tenantName) + "-kes-external-cert" }
  function MinioClientCertName(tenantName: string): string { SecretName(tenantName) + "-tenant-external-client-cert" }
  function MinioCertName(tenantName: string): string { SecretName(tenantName) + "-instance-external-certificates" }

  // The secrets and the restarts of an update.
  function KesConfigId(ns: string, tenantName: string): SecretId { SecretId(ns, KesConfigName(tenantName)) }
  function KesClientCertId(ns: string, tenantName: string): SecretId { SecretId(ns, KesClientCertName(tenantName)) }
  function KesServerCertId(ns: string, tenantName: string): SecretId {
    SecretId(ns, CertName(KesServerCertName(tenantName), 0))
  }
  function MinioClientCertId(ns: string, tenantName: string): SecretId {
    SecretId(ns, CertName(MinioClientCertName(tenantName), 0))
  }
  function MinioRestart(ns: string, tenantName: string): Event { Restarted(ns, TenantPods(tenantName)) }
  function KesRestart(ns: string, tenantName: string): Event { Restarted(ns, KesPods(tenantName)) }

  // Every restart of pods comes after the creation of the secret it is for; the KES restart is the
  // last event of all, and the MinIO pods are restarted once at most.
  ghost predicate RestartsFollowSecrets(before: seq<Event>, after: seq<Event>, ns: string, tenantName: string) {
    && before <= after
    && (forall k | |before| <= k < |after| && after[k].Restarted? ::
          || (after[k] == MinioRestart(ns, tenantName)
              && Created(MinioClientCertId(ns, tenantName)) in after[|before|..k])
          || (after[k] == KesRestart(ns, tenantName) && k == |after| - 1
              && Created(KesConfigId(ns, tenantName)) in after[|before|..k]))
    && (forall j, k | |before| <= j < k < |after| && after[j].Restarted? && after[k].Restarted? :: after[j] != after[k])
  }

  ghost predicate EndsWithKesRestart(before: seq<Event>, after: seq<Event>, ns: string, tenantName: string) {
    |after| > |before| && after[|after| - 1] == KesRestart(ns, tenantName)
  }

  // One restart, at the end, with the secret created before it.
  ghost predicate RestartedAtEnd(before: seq<Event>, after: seq<Event>, restart: Event, id: SecretId) {
    && |before| < |after| && restart.Restarted?
    && OnlySecretEvents(before, after[..|after| - 1])
    && after[|after| - 1] == restart
    && Created(id) in after[|before|..|after| - 1]
  }

  lemma NoEarlierRestart(before: seq<Event>, after: seq<Event>, restart: Event, id: SecretId)
    requires RestartedAtEnd(before, after, restart, id)
    ensures before <= after && forall k | |before| <= k < |after| - 1 :: !after[k].Restarted?
  {
    var init := after[..|after| - 1];
    assert before == init[..|before|];
    forall k | |before| <= k < |after| - 1 ensures !after[k].Restarted? {
      assert init[k] == after[k];
    }
  }

  lemma StepsInOrder(start: seq<Event>, minio: seq<Event>, end: seq<Event>, ns: string, tenantName: string)
    requires OnlySecretEvents(start, minio)
             || RestartedAtEnd(start, minio, MinioRestart(ns, tenantName), MinioClientCertId(ns, tenantName))
    requires OnlySecretEvents(minio, end)
             || RestartedAtEnd(minio, end, KesRestart(ns, tenantName), KesConfigId(ns, tenantName))
    ensures RestartsFollowSecrets(start, end, ns, tenantName)
    ensures EndsWithKesRestart(start, end, ns, tenantName) ==> !OnlySecretEvents(minio, end)
  {
    if !OnlySecretEvents(start, minio) {
      NoEarlierRestart(start, minio, MinioRestart(ns, tenantName), MinioClientCertId(ns, tenantName));
    }
    if !OnlySecretEvents(minio, end) {
      NoEarlierRestart(minio, end, KesRestart(ns, tenantName), KesConfigId(ns, tenantName));
    }
    forall k | |start| <= k < |end| && end[k].Restarted?
      ensures (k == |minio| - 1 && end[k] == MinioRestart(ns, tenantName)
               && Created(MinioClientCertId(ns, tenantName)) in end[|start|..k])
              || (k == |end| - 1 && end[k] == KesRestart(ns, tenantName)
                  && Created(KesConfigId(ns, tenantName)) in end[|start|..k])
    {
      if k < |minio| {
        assert end[k] == minio[k];
        assert end[|start|..k] == minio[|start|..k];
      } else {
        assert end[|start|..k] == end[|start|..|minio|] + end[|minio|..k];
      }
    }
  }

  // The first certificate under a name holds a decoded pair.
  ghost predicate CertStored(secrets: map<SecretId, Secret>, ns: string, name: string, pair: Option<KeyPair>,
                             codec: Codec, tenantName: string) {
    && Decodable(pair, codec.base64)
    && SecretId(ns, CertName(name, 0)) in secrets
    && secrets[SecretId(ns, CertName(name, 0))] == TlsSecret(pair, codec.base64, tenantName)
  }

  lemma SingleCert(before: map<SecretId, Secret>, after: map<SecretId, Secret>, ns: string, name: string,
                   pair: Option<KeyPair>, codec: Codec, tenantName: string)
    requires CertsReplaced(before, after, ns, [pair], name, codec.base64, tenantName)
    ensures CertStored(after, ns, name, pair, codec, tenantName)
    ensures OnlyTouched(before, after, {SecretId(ns, CertName(name, 0))})
  {
    assert [pair][..0] == [];
    assert [pair][0] == pair;
    assert CertSecrets(ns, [pair], name, codec.base64, tenantName)
           == map[SecretId(ns, CertName(name, 0)) := TlsSecret(pair, codec.base64, tenantName)];
  }

  // The secrets a successful update leaves.
  ghost predicate EncryptionApplied(secrets: map<SecretId, Secret>, ns: string, tenant: Tenant, tenantName: string,
                                    body: EncryptionConfiguration, codec: Codec) {
    CertsApplied(secrets, ns, tenant, tenantName, body, codec) && KesApplied(secrets, ns, tenantName, body, codec)
  }

  ghost predicate CertsApplied(secrets: map<SecretId, Secret>, ns: string, tenant: Tenant, tenantName: string,
                               body: EncryptionConfiguration, codec: Codec) {
    && (tenant.kesExternalCert && body.server.Some? ==>
          CertStored(secrets, ns, KesServerCertName(tenantName), body.server, codec, tenantName))
    && (tenant.externalClientCert && body.client.Some? ==>
          CertStored(secrets, ns, MinioClientCertName(tenantName), body.client, codec, tenantName))
  }

  ghost predicate KesApplied(secrets: map<SecretId, Secret>, ns: string, tenantName: string,
                             body: EncryptionConfiguration, codec: Codec) {
    && Compile(body, codec).Done?
    && var compiled := Compile(body, codec).value;
    && codec.yaml(compiled.config).Some?
    && KesConfigId(ns, tenantName) in secrets
    && secrets[KesConfigId(ns, tenantName)] == ConfigurationSecret(codec.yaml(compiled.config).value, tenantName)
    && (compiled.files != map[] ==>
          && KesClientCertId(ns, tenantName) in secrets
          && secrets[KesClientCertId(ns, tenantName)] == ClientCertSecret(compiled.files, tenantName))
  }

  lemma NamesDiffer(tenantName: string)
    ensures var server := CertName(KesServerCertName(tenantName), 0);
      var client := CertName(MinioClientCertName(tenantName), 0);
      && server != client
      && KesConfigName(tenantName) !in {server, client, KesClientCertName(tenantName)}
      && KesClientCertName(tenantName) !in {server, client}
  {
    var n := |tenantName| + 7;
    assert |CertName(KesServerCertName(tenantName), 0)| == n + 20;
    assert |CertName(MinioClientCertName(tenantName), 0)| == n + 30;
    assert |KesConfigName(tenantName)| == n + 18;
    assert |KesClientCertName(tenantName)| == n + 16;
  }

  // What stands in the secrets after an update, under the names the tenant mounts them by.

  lemma Associates(a: string, b: string, c: string)
    ensures a + b + c == a + (b + c)
  {
  }

  lemma KesNames(ns: string, tenantName: string)
    ensures KesConfigId(ns, tenantName) == SecretId(ns, tenantName + "-secret-kes-configuration")
    ensures KesClientCertId(ns, tenantName) == SecretId(ns, tenantName + "-secret-kes-client-cert")
    ensures KesRestart(ns, tenantName) == Restarted(ns, KesPods(tenantName))
  {
    Associates(tenantName, "-secret", "-kes-configuration");
    Associates(tenantName, "-secret", "-kes-client-cert");
    assert "-secret" + "-kes-configuration" == "-secret-kes-configuration";
    assert "-secret" + "-kes-client-cert" == "-secret-kes-client-cert";
  }

  lemma KesServerCertNames(ns: string, tenantName: string)
    ensures KesServerCertId(ns, tenantName) == SecretId(ns, tenantName + "-secret-kes-external-cert-0")
  {
    var suffix := "-kes-external-cert";
    Associates(tenantName, "-secret", suffix);
    Associates(tenantName, "-secret" + suffix, "-");
    Associates(tenantName, "-secret" + suffix + "-", "0");
    assert "-secret" + suffix + "-" + "0" == "-secret-kes-external-cert-0";
  }

  lemma MinioClientCertNames(ns: string, tenantName: string)
    ensures MinioClientCertId(ns, tenantName) == SecretId(ns, tenantName + "-secret-tenant-external-client-cert-0")
    ensures MinioRestart(ns, tenantName) == Restarted(ns, TenantPods(tenantName))
    ensures MinioCertName(tenantName) == tenantName + "-secret" + "-instance-external-certificates"
  {
    var suffix := "-tenant-external-client-cert";
    Associates(tenantName, "-secret", suffix);
    Associates(tenantName, "-secret" + suffix, "-");
    Associates(tenantName, "-secret" + suffix + "-", "0");
    assert "-secret" + suffix + "-" + "0" == "-secret-tenant-external-client-cert-0";
  }

  lemma KesContents(secrets: map<SecretId, Secret>, ns: string, tenantName: string, body: EncryptionConfiguration,
                    codec: Codec)
    requires KesApplied(secrets, ns, tenantName, body, codec)
    ensures Compile(body, codec).Done?
    ensures var Compiled(config, files) := Compile(body, codec).value;
      var configId := SecretId(ns, tenantName + "-secret-kes-configuration");
      var clientId := SecretId(ns, tenantName + "-secret-kes-client-cert");
      && configId in secrets
      && secrets[configId].data.Keys == {"server-config.yaml"}
      && codec.yaml(config) == Some(secrets[configId].data["server-config.yaml"])
      && secrets[configId].tenant == tenantName && secrets[configId].immutable
      && (files != map[] ==>
            && clientId in secrets && secrets[clientId].data == files
            && secrets[clientId].tenant == tenantName && secrets[clientId].immutable)
  {
    KesNames(ns, tenantName);
  }

  lemma CertContents(secrets: map<SecretId, Secret>, ns: string, tenant: Tenant, tenantName: string,
                     body: EncryptionConfiguration, codec: Codec)
    requires CertsApplied(secrets, ns, tenant, tenantName, body, codec)
    ensures tenant.kesExternalCert && body.server.Some? ==>
              var id := SecretId(ns, tenantName + "-secret-kes-external-cert-0");
              id in secrets && HoldsPair(secrets[id], body.server.value, codec)
    ensures tenant.externalClientCert && body.client.Some? ==>
              var id := SecretId(ns, tenantName + "-secret-tenant-external-client-cert-0");
              id in secrets && HoldsPair(secrets[id], body.client.value, codec)
  {
    KesServerCertNames(ns, tenantName);
    MinioClientCertNames(ns, tenantName);
  }

  predicate HoldsPair(secret: Secret, pair: KeyPair, codec: Codec) {
    && secret.data.Keys == {"tls.crt", "tls.key"} && pair.crt.Some? && pair.key.Some?
    && codec.base64(pair.crt.value) == Some(secret.data["tls.crt"])
    && codec.base64(pair.key.value) == Some(secret.data["tls.key"])
  }

  lemma TouchedInOrder(start: map<SecretId, Secret>, now: map<SecretId, Secret>, end: map<SecretId, Secret>,
                       earlier: set<SecretId>, later: set<SecretId>, all: set<SecretId>)
    requires OnlyTouched(start, now, earlier) && OnlyTouched(now, end, later) && earlier <= all && later <= all
    ensures OnlyTouched(start, end, all)
  {
    forall id | id !in all ensures Unchanged(start, end, id) {
      assert Unchanged(start, now, id) && Unchanged(now, end, id);
    }
  }

  // The secrets an update of the encryption may touch.
  function EncryptionSecrets(ns: string, tenantName: string): set<SecretId> {
    {KesServerCertId(ns, tenantName), MinioClientCertId(ns, tenantName),
     KesConfigId(ns, tenantName), KesClientCertId(ns, tenantName)}
  }

  lemma StoppedCertTouchesOne(before: map<SecretId, Secret>, after: map<SecretId, Secret>, ns: string, name: string,
                              pair: Option<KeyPair>, codec: Codec, tenantName: string, j: nat,
                              error: ReplaceError, faulty: bool)
    requires CertsStopped(before, after, ns, [pair], name, codec.base64, tenantName, j, error, faulty)
    ensures OnlyTouched(before, after, {SecretId(ns, CertName(name, 0))})
  {
    assert [pair][..0] == [];
  }

  // Later steps touch other names, so each step's secret is still there at the end.

  lemma CertsInOrder(served: map<SecretId, Secret>, end: map<SecretId, Secret>, ns: string, tenant: Tenant,
                     tenantName: string, body: EncryptionConfiguration, codec: Codec)
    requires tenant.kesExternalCert && body.server.Some? ==>
               CertStored(served, ns, KesServerCertName(tenantName), body.server, codec, tenantName)
    requires tenant.externalClientCert && body.client.Some? ==>
               CertStored(end, ns, MinioClientCertName(tenantName), body.client, codec, tenantName)
    requires OnlyTouched(served, end, {MinioClientCertId(ns, tenantName)})
    ensures CertsApplied(end, ns, tenant, tenantName, body, codec)
  {
    NamesDiffer(tenantName);
    assert Unchanged(served, end, KesServerCertId(ns, tenantName));
  }

  lemma AppliedInOrder(minio: map<SecretId, Secret>, end: map<SecretId, Secret>, ns: string, tenant: Tenant,
                       tenantName: string, body: EncryptionConfiguration, codec: Codec)
    requires CertsApplied(minio, ns, tenant, tenantName, body, codec)
    requires OnlyTouched(minio, end, {KesConfigId(ns, tenantName), KesClientCertId(ns, tenantName)})
    requires KesApplied(end, ns, tenantName, body, codec)
    ensures EncryptionApplied(end, ns, tenant, tenantName, body, codec)
  {
    NamesDiffer(tenantName);
    assert Unchanged(minio, end, KesServerCertId(ns, tenantName));
    assert Unchanged(minio, end, MinioClientCertId(ns, tenantName));
  }

  // What an update needs of the request, when no call fails.
  predicate ServerCertUsable(tenant: Tenant, server: Option<KeyPair>, codec: Codec) {
    tenant.kesExternalCert && server.Some? ==> Decodable(server, codec.base64)
  }

  predicate ClientCertUsable(tenant: Tenant, clientCert: Option<KeyPair>, codec: Codec) {
    tenant.externalClientCert && clientCert.Some? ==> Decodable(clientCert, codec.base64)
  }

  predicate Applicable(tenant: Tenant, body: EncryptionConfiguration, codec: Codec) {
    CertsUsable(tenant, body, codec) && Compilable(body, codec)
  }

  predicate CertsUsable(tenant: Tenant, body: EncryptionConfiguration, codec: Codec) {
    ServerCertUsable(tenant, body.server, codec) && ClientCertUsable(tenant, body.client, codec)
  }

  // What an update that failed although no call did has done to the KES configuration: it is gone if
  // the certificates were usable, so that the request did not compile, and untouched otherwise.
  ghost predicate ConfigLostIfCertsUsable(before: map<SecretId, Secret>, after: map<SecretId, Secret>, ns: string,
                                          tenant: Tenant,
                                          tenantName: string, body: EncryptionConfiguration, codec: Codec) {
    if CertsUsable(tenant, body, codec) then KesConfigId(ns, tenantName) !in after
    else Unchanged(before, after, KesConfigId(ns, tenantName))
  }

  method ReplaceServerCert(client: Client, codec: Codec, ns: string, tenant: Tenant, tenantName: string,
                           server: Option<KeyPair>)
    returns (ok: bool)
    modifies client`secrets, client`events, client`faulty
    ensures old(client.faulty) ==> client.faulty
    ensures OnlySecretEvents(old(client.events), client.events)
    ensures OnlyTouched(old(client.secrets), client.secrets, {KesServerCertId(ns, tenantName)})
    ensures ok && tenant.kesExternalCert && server.Some? ==>
              CertStored(client.secrets, ns, KesServerCertName(tenantName), server, codec, tenantName)
    ensures !client.faulty ==> (ok <==> ServerCertUsable(tenant, server, codec))
  {
    ok := true;
    if tenant.kesExternalCert && server.Some? {
      var replaced := CreateOrReplaceExternalCertSecrets(client, codec.base64, ns, [server],
                                                         KesServerCertName(tenantName), tenantName);
      ok := replaced.Ok?;
      if ok {
        SingleCert(old(client.secrets), client.secrets, ns, KesServerCertName(tenantName), server, codec, tenantName);
      } else {
        ghost var j :| CertsStopped(old(client.secrets), client.secrets, ns, [server], KesServerCertName(tenantName),
                                    codec.base64, tenantName, j, replaced.error, client.faulty);
        StoppedCertTouchesOne(old(client.secrets), client.secrets, ns, KesServerCertName(tenantName), server, codec,
                              tenantName, j, replaced.error, client.faulty);
        assert [server][0] == server;
      }
    }
  }

  method ReplaceClientCert(client: Client, codec: Codec, ns: string, tenant: Tenant, tenantName: string,
                           clientCert: Option<KeyPair>)
    returns (failure: Option<KesError>)
    modifies client`secrets, client`events, client`faulty
    ensures old(client.faulty) ==> client.faulty
    ensures OnlySecretEvents(old(client.events), client.events)
            || RestartedAtEnd(old(client.events), client.events, MinioRestart(ns, tenantName),
                              MinioClientCertId(ns, tenantName))
    ensures failure != Some(ApproleMissing)
    ensures failure.None? && tenant.externalClientCert && clientCert.Some? ==>
              CertStored(client.secrets, ns, MinioClientCertName(tenantName), clientCert, codec, tenantName)
    ensures OnlyTouched(old(client.secrets), client.secrets, {MinioClientCertId(ns, tenantName)})
    ensures failure.None? && tenant.externalClientCert && clientCert.Some? ==>
              MinioRestart(ns, tenantName) in client.events[|old(client.events)|..]
    ensures !client.faulty ==> (failure.None? <==> ClientCertUsable(tenant, clientCert, codec))
  {
    if tenant.externalClientCert && clientCert.Some? {
      var replaced := CreateOrReplaceExternalCertSecrets(client, codec.base64, ns, [clientCert],
                                                         MinioClientCertName(tenantName), tenantName);
      if replaced.Err? {
        ghost var j :| CertsStopped(old(client.secrets), client.secrets, ns, [clientCert],
                                    MinioClientCertName(tenantName),
                                    codec.base64, tenantName, j, replaced.error, client.faulty);
        StoppedCertTouchesOne(old(client.secrets), client.secrets, ns, MinioClientCertName(tenantName), clientCert,
                              codec, tenantName, j, replaced.error, client.faulty);
        return Some(CertificatesNotReplaced);
      }
      SingleCert(old(client.secrets), client.secrets, ns, MinioClientCertName(tenantName), clientCert, codec,
                 tenantName);
      ghost var happened := client.events;
      var restarted := client.DeletePodCollection(ns, TenantPods(tenantName));
      assert client.events[..|client.events| - 1] == happened;
      assert client.events[|happened|] == MinioRestart(ns, tenantName);
      if !restarted { return Some(RestartFailed); }
    }
    return None;
  }

  method ReplaceKesConfiguration(client: Client, codec: Codec, ns: string, tenantName: string,
                                 body: EncryptionConfiguration)
    returns (r: Outcome<()>)
    modifies client`secrets, client`events, client`faulty
    ensures old(client.faulty) ==> client.faulty
    ensures OnlySecretEvents(old(client.events), client.events)
            || RestartedAtEnd(old(client.events), client.events, KesRestart(ns, tenantName),
                              KesConfigId(ns, tenantName))
    ensures !OnlySecretEvents(old(client.events), client.events) ==> KesConfigId(ns, tenantName) in client.secrets
    ensures r.Done? ==> EndsWithKesRestart(old(client.events), client.events, ns, tenantName)
    ensures Validate(body).None? ==> !r.NilDereference? && r != Failed(ApproleMissing)
    ensures r.Done? ==> KesApplied(client.secrets, ns, tenantName, body, codec)
    ensures !client.faulty ==> (r.Done? <==> Compilable(body, codec))
    ensures !client.faulty && !r.Done? ==> KesConfigId(ns, tenantName) !in client.secrets
    ensures OnlyTouched(old(client.secrets), client.secrets,
                        {KesConfigId(ns, tenantName), KesClientCertId(ns, tenantName)})
  {
    if Validate(body).None? {
      ValidatedNeverPanics(body, codec);
    }
    NamesDiffer(tenantName);
    var configured := CreateOrReplaceKesConfigurationSecrets(client, codec, ns, body, KesConfigName(tenantName),
                                                             KesClientCertName(tenantName), tenantName);
    if configured.NilDereference? { return NilDereference; }
    if configured.Failed? { return Failed(configured.error); }
    ghost var happened := client.events;
    var restarted := client.DeletePodCollection(ns, KesPods(tenantName));
    assert client.events[..|client.events| - 1] == happened;
    if !restarted { return Failed(RestartFailed); }
    return Done(());
  }

  // Both certificates. The pods of MinIO are restarted after the second, if it is replaced.
  method ReplaceCerts(client: Client, codec: Codec, ns: string, tenant: Tenant, tenantName: string,
                      body: EncryptionConfiguration)
    returns (failure: Option<KesError>)
    modifies client`secrets, client`events, client`faulty
    ensures old(client.faulty) ==> client.faulty
    ensures OnlySecretEvents(old(client.events), client.events)
            || RestartedAtEnd(old(client.events), client.events, MinioRestart(ns, tenantName),
                              MinioClientCertId(ns, tenantName))
    ensures failure != Some(ApproleMissing)
    ensures OnlyTouched(old(client.secrets), client.secrets, EncryptionSecrets(ns, tenantName))
    ensures Unchanged(old(client.secrets), client.secrets, KesConfigId(ns, tenantName))
    ensures failure.None? ==> CertsApplied(client.secrets, ns, tenant, tenantName, body, codec)
    ensures failure.None? && tenant.externalClientCert && body.client.Some? ==>
              MinioRestart(ns, tenantName) in client.events[|old(client.events)|..]
    ensures !client.faulty ==> (failure.None? <==> CertsUsable(tenant, body, codec))
  {
    var ok := ReplaceServerCert(client, codec, ns, tenant, tenantName, body.server);
    ghost var served, servedSecrets := client.events, client.secrets;
    NamesDiffer(tenantName);
    if !ok {
      return Some(CertificatesNotReplaced);
    }
    failure := ReplaceClientCert(client, codec, ns, tenant, tenantName, body.client);
    AfterSecretEvents(old(client.events), served, client.events, MinioRestart(ns, tenantName),
                      MinioClientCertId(ns, tenantName));
    TouchedInOrder(old(client.secrets), servedSecrets, client.secrets, {KesServerCertId(ns, tenantName)},
                   {MinioClientCertId(ns, tenantName)},
                   {KesServerCertId(ns, tenantName), MinioClientCertId(ns, tenantName)});
    if failure.None? {
      CertsInOrder(servedSecrets, client.secrets, ns, tenant, tenantName, body, codec);
    }
  }

  // The update of a tenant whose encryption is enabled.
  method UpdateEnabledEncryption(client: Client, codec: Codec, ns: string, tenant: Tenant, tenantName: string,
                                 body: EncryptionConfiguration)
    returns (r: Outcome<()>)
    modifies client`secrets, client`events, client`faulty
    ensures old(client.faulty) ==> client.faulty
    ensures RestartsFollowSecrets(old(client.events), client.events, ns, tenantName)
    ensures r.Done? ==> EndsWithKesRestart(old(client.events), client.events, ns, tenantName)
    ensures EndsWithKesRestart(old(client.events), client.events, ns, tenantName) ==>
              KesConfigId(ns, tenantName) in client.secrets
    ensures Validate(body).None? ==> !r.NilDereference? && r != Failed(ApproleMissing)
    ensures OnlyTouched(old(client.secrets), client.secrets, EncryptionSecrets(ns, tenantName))
    ensures r.Done? ==> EncryptionApplied(client.secrets, ns, tenant, tenantName, body, codec)
    ensures r.Done? && tenant.externalClientCert && body.client.Some? ==>
              MinioRestart(ns, tenantName) in client.events[|old(client.events)|..]
    ensures !client.faulty ==> (r.Done? <==> Applicable(tenant, body, codec))
    ensures !client.faulty && !r.Done? ==>
              ConfigLostIfCertsUsable(old(client.secrets), client.secrets, ns, tenant, tenantName, body, codec)
  {
    var failure := ReplaceCerts(client, codec, ns, tenant, tenantName, body);
    ghost var minio, minioSecrets := client.events, client.secrets;
    if failure.Some? {
      StepsInOrder(old(client.events), minio, minio, ns, tenantName);
      return Failed(failure.value);
    }
    r := ReplaceKesConfiguration(client, codec, ns, tenantName, body);
    TouchedInOrder(old(client.secrets), minioSecrets, client.secrets, EncryptionSecrets(ns, tenantName),
                   {KesConfigId(ns, tenantName), KesClientCertId(ns, tenantName)}, EncryptionSecrets(ns, tenantName));
    StepsInOrder(old(client.events), minio, client.events, ns, tenantName);
    if r.Done? {
      AppliedInOrder(minioSecrets, client.secrets, ns, tenant, tenantName, body, codec);
    }
  }

  method TenantUpdateEncryption(client: Client, codec: Codec, ns: string, tenantName: string,
                                body: EncryptionConfiguration)
    returns (r: Outcome<()>)
    modifies client`secrets, client`events, client`faulty
    ensures old(client.faulty) ==> client.faulty
    ensures RestartsFollowSecrets(old(client.events), client.events, ns, tenantName)
    ensures TenantId(ns, tenantName) !in client.tenants || !client.tenants[TenantId(ns, tenantName)].kesEnabled ==>
              client.secrets == old(client.secrets) && client.events == old(client.events)
    ensures OnlyTouched(old(client.secrets), client.secrets, EncryptionSecrets(ns, tenantName))
    ensures r.Done? ==> TenantId(ns, tenantName) in client.tenants
    ensures r.Done? && client.tenants[TenantId(ns, tenantName)].kesEnabled ==>
              && EndsWithKesRestart(old(client.events), client.events, ns, tenantName)
              && EncryptionApplied(client.secrets, ns, client.tenants[TenantId(ns, tenantName)], tenantName, body,
                                   codec)
              && (client.tenants[TenantId(ns, tenantName)].externalClientCert && body.client.Some? ==>
                    MinioRestart(ns, tenantName) in client.events[|old(client.events)|..])
    ensures EndsWithKesRestart(old(client.events), client.events, ns, tenantName) ==>
              KesConfigId(ns, tenantName) in client.secrets
    ensures Validate(body).None? ==> !r.NilDereference? && r != Failed(ApproleMissing)
    ensures !client.faulty ==>
              (r.Done? <==> TenantId(ns, tenantName) in client.tenants
                            && (client.tenants[TenantId(ns, tenantName)].kesEnabled ==>
                                  Applicable(client.tenants[TenantId(ns, tenantName)], body, codec)))
    ensures !client.faulty && !r.Done? && TenantId(ns, tenantName) in client.tenants ==>
              ConfigLostIfCertsUsable(old(client.secrets), client.secrets, ns, client.tenants[TenantId(ns, tenantName)],
                                      tenantName, body, codec)
  {
    var found := client.TenantGet(TenantId(ns, tenantName));
    if found.None? { return Failed(TenantUnavailable); }
    if !found.value.kesEnabled { return Done(()); }
    r := UpdateEnabledEncryption(client, codec, ns, found.value, tenantName, body);
  }

  lemma AfterSecretEvents(start: seq<Event>, now: seq<Event>, end: seq<Event>, restart: Event, id: SecretId)
    requires OnlySecretEvents(start, now)
    ensures OnlySecretEvents(now, end) ==> OnlySecretEvents(start, end)
    ensures RestartedAtEnd(now, end, restart, id) ==> RestartedAtEnd(start, end, restart, id)
  {
    if OnlySecretEvents(now, end) {
      LaterEventsKeep(start, now, end);
    }
    if RestartedAtEnd(now, end, restart, id) {
      LaterEventsKeep(start, now, end[..|end| - 1]);
      assert end[..|end| - 1][|now|..] == end[|now|..|end| - 1];
      assert end[..|end| - 1][|start|..] == end[|start|..|end| - 1];
    }
  }

  method TenantUpdateCertificates(client: Client, codec: Codec, ns: string, tenantName: string,
                                  minio: Option<seq<Option<KeyPair>>>)
    returns (r: Outcome<()>)
    modifies client`secrets, client`events, client`faulty
    ensures old(client.faulty) ==> client.faulty
    ensures minio.None? ==> client.secrets == old(client.secrets) && client.events == old(client.events)
    ensures var id := TenantId(ns, tenantName);
      id !in client.tenants || !client.tenants[id].externalCert ==>
        client.secrets == old(client.secrets) && client.events == old(client.events)
    ensures r.Done? && minio.Some? && TenantId(ns, tenantName) in client.tenants
            && client.tenants[TenantId(ns, tenantName)].externalCert ==>
              && CertsReplaced(old(client.secrets), client.secrets, ns, minio.value, MinioCertName(tenantName),
                               codec.base64, tenantName)
              && |client.events| > |old(client.events)|
              && client.events[|client.events| - 1] == MinioRestart(ns, tenantName)
    ensures !client.faulty ==>
              (r.Done? <==> TenantId(ns, tenantName) in client.tenants
                            && (client.tenants[TenantId(ns, tenantName)].externalCert && minio.Some? ==>
                                  AllDecodable(minio.value, codec.base64)))
    ensures forall k | |old(client.events)| <= k < |client.events| && client.events[k].Restarted? ::
              && k == |client.events| - 1 && client.events[k] == MinioRestart(ns, tenantName)
              && CertsReplaced(old(client.secrets), client.secrets, ns, minio.GetOr([]), MinioCertName(tenantName),
                               codec.base64, tenantName)
  {
    var found := client.TenantGet(TenantId(ns, tenantName));
    if found.None? { return Failed(TenantUnavailable); }
    var tenant := found.value;
    if tenant.externalCert && minio.Some? {
      var replaced := CreateOrReplaceExternalCertSecrets(client, codec.base64, ns, minio.value,
                                                         MinioCertName(tenantName), tenantName);
      if replaced.Err? { return Failed(CertificatesNotReplaced); }
      var restarted := client.DeletePodCollection(ns, TenantPods(tenantName));
      if !restarted { return Failed(RestartFailed); }
    }
    return Done(());
  }
}
