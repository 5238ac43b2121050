// operatorapi/operator_tenants_helper.go:323-501: from an encryption request to the configuration
// of the key encryption service (KES) and the certificate files it mounts.
module KesConfig {
  import opened Encryption
  import opened Wrappers

  datatype KesError = BadBase64 | BadCertificate | ApproleMissing | YamlFailed | SecretNotCreated
                    | CertificatesNotReplaced | RestartFailed | TenantUnavailable

  // A call returns a value, returns an error, or dereferences a nil pointer and panics.
  datatype Outcome<+T> = Done(value: T) | Failed(error: KesError) | NilDereference {
    predicate IsFailure() { !Done? }

    function PropagateFailure<U>(): Outcome<U>
      requires IsFailure()
    {
      if Failed? then Outcome<U>.Failed(error) else Outcome<U>.NilDereference
    }

    function Extract(): T
      requires Done?
    {
      value
    }
  }

  // Library code: base64 decoding, parsing and hashing of a certificate, marshalling.
  datatype Codec = Codec(base64: string -> Option<string>, identity: string -> Option<string>,
                         yaml: ServerConfig -> Option<string>)

  const CLIENT_CRT_PATH := "/tmp/kes/client.crt"
  const CLIENT_KEY_PATH := "/tmp/kes/client.key"
  const CLIENT_CA_PATH := "/tmp/kes/ca.crt"

  datatype KesAppRole = KesAppRole(enginePath: string, id: string, secret: string, retrySeconds: nat)
  // A path that is not set is empty.
  datatype KesVaultTls = KesVaultTls(keyPath: string, certPath: string, caPath: string)
  datatype KesVault = KesVault(endpoint: string, enginePath: string, namespace: string, prefix: string,
                               appRole: Option<KesAppRole>, tls: Option<KesVaultTls>, pingSeconds: nat)
  datatype KesAwsLogin = KesAwsLogin(accessKey: string, secretKey: string, sessionToken: string)
  datatype KesAws = KesAws(endpoint: string, region: string, kmsKey: string, login: Option<KesAwsLogin>)
  datatype KesGemaltoCredentials = KesGemaltoCredentials(token: string, domain: string, retrySeconds: nat)
  datatype KesGemalto = KesGemalto(endpoint: string, credentials: Option<KesGemaltoCredentials>,
                                   tlsCaPath: Option<string>)
  datatype KesGcp = KesGcp(projectId: string, endpoint: string, credentials: Option<GcpCredentials>)
  datatype Keys = Keys(vault: Option<KesVault>, aws: Option<KesAws>, gemalto: Option<KesGemalto>, gcp: Option<KesGcp>)

  datatype Policy = Policy(paths: seq<string>, identities: seq<string>)
  datatype ServerConfig = ServerConfig(addr: string, root: string, keyPath: string, certPath: string,
                                       policies: map<string, Policy>, cacheAnySeconds: nat, cacheUnusedSeconds: nat,
                                       errorLog: string, auditLog: string, keys: Keys)

  const NO_KEYS := Keys(None, None, None, None)

  function DefaultConfig(identity: string): ServerConfig {
    var policy := Policy(["/v1/key/create/my-minio-key", "/v1/key/generate/my-minio-key",
                          "/v1/key/decrypt/my-minio-key"],
                         [identity]);
    ServerConfig("0.0.0.0:7373", "disabled", "/tmp/kes/server.key", "/tmp/kes/server.crt",
                 map["default-policy" := policy], 300, 20, "on", "off", NO_KEYS)
  }

  // The configuration, and the files of the client secret by name.
  datatype Compiled = Compiled(config: ServerConfig, files: map<string, string>)

  // The specification: one provider at a time.

  function Deref<T>(pointer: Option<T>): Outcome<T> {
    if pointer.None? then NilDereference else Done(pointer.value)
  }

  function Decode(codec: Codec, text: string): Outcome<string> {
    match codec.base64(text) case None => Failed(BadBase64) case Some(bytes) => Done(bytes)
  }

  // An empty text stands for no file.
  function DecodeFile(codec: Codec, name: string, text: string): Outcome<map<string, string>> {
    if text == "" then Done(map[]) else
      var bytes :- Decode(codec, text);
      Done(map[name := bytes])
  }

  function ClientIdentity(cfg: EncryptionConfiguration, codec: Codec): Outcome<string> {
    if cfg.client.None? then Done("${MINIO_KES_IDENTITY}") else
      var crt :- Deref(cfg.client.value.crt);
      var pem :- Decode(codec, crt);
      match codec.identity(pem) case None => Failed(BadCertificate) case Some(identity) => Done(identity)
  }

  function PathIf(mounted: bool, path: string): string { if mounted then path else "" }

  function VaultFiles(vault: Vault, codec: Codec): Outcome<map<string, string>> {
    if vault.tls.None? then Done(map[]) else
      var crt :- DecodeFile(codec, "client.crt", vault.tls.value.crt);
      var key :- DecodeFile(codec, "client.key", vault.tls.value.key);
      var ca :- DecodeFile(codec, "ca.crt", vault.tls.value.ca);
      Done(crt + key + ca)
  }

  function VaultPaths(files: map<string, string>): KesVaultTls {
    KesVaultTls(PathIf("client.key" in files, CLIENT_KEY_PATH), PathIf("client.crt" in files, CLIENT_CRT_PATH),
                PathIf("ca.crt" in files, CLIENT_CA_PATH))
  }

  function CompileVault(vault: Vault, codec: Codec): Outcome<(Keys, map<string, string>)> {
    var endpoint :- Deref(vault.endpoint);
    if vault.approle.None? then Failed(ApproleMissing) else
      var id :- Deref(vault.approle.value.id);
      var secret :- Deref(vault.approle.value.secret);
      var files :- VaultFiles(vault, codec);
      var tls := if vault.tls.None? then None else Some(VaultPaths(files));
      var appRole := KesAppRole(vault.approle.value.engine, id, secret, 15);
      var kes := KesVault(endpoint, vault.engine, vault.namespace, vault.prefix, Some(appRole), tls, 10);
      Done((NO_KEYS.(vault := Some(kes)), files))
  }

  function CompileAws(aws: Aws): Outcome<Keys> {
    if aws.secretsmanager.None? then Done(NO_KEYS.(aws := Some(KesAws("", "", "", None)))) else
      var manager := aws.secretsmanager.value;
      var endpoint :- Deref(manager.endpoint);
      var region :- Deref(manager.region);
      if manager.credentials.None? then Done(NO_KEYS.(aws := Some(KesAws(endpoint, region, manager.kmskey, None)))) else
        var accessKey :- Deref(manager.credentials.value.accesskey);
        var secretKey :- Deref(manager.credentials.value.secretkey);
        var login := KesAwsLogin(accessKey, secretKey, manager.credentials.value.token);
        Done(NO_KEYS.(aws := Some(KesAws(endpoint, region, manager.kmskey, Some(login)))))
  }

  function GemaltoFiles(keySecure: KeySecure, codec: Codec): Outcome<map<string, string>> {
    if keySecure.tls.None? || keySecure.tls.value.ca.None? then Done(map[]) else
      var ca :- Decode(codec, keySecure.tls.value.ca.value);
      Done(map["ca.crt" := ca])
  }

  function CompileGemalto(gemalto: Gemalto, codec: Codec): Outcome<(Keys, map<string, string>)> {
    if gemalto.keysecure.None? then Done((NO_KEYS.(gemalto := Some(KesGemalto("", None, None))), map[])) else
      var keySecure := gemalto.keysecure.value;
      var endpoint :- Deref(keySecure.endpoint);
      var files :- GemaltoFiles(keySecure, codec);
      var tlsCaPath := if "ca.crt" in files then Some(CLIENT_CA_PATH) else None;
      if keySecure.credentials.None? then
        Done((NO_KEYS.(gemalto := Some(KesGemalto(endpoint, None, tlsCaPath))), files)) else
        var token :- Deref(keySecure.credentials.value.token);
        var domain :- Deref(keySecure.credentials.value.domain);
        var credentials := KesGemaltoCredentials(token, domain, 15);
        Done((NO_KEYS.(gemalto := Some(KesGemalto(endpoint, Some(credentials), tlsCaPath))), files))
  }

  function CompileGcp(gcp: Gcp): Outcome<Keys> {
    if gcp.secretmanager.None? then Done(NO_KEYS.(gcp := Some(KesGcp("", "", None)))) else
      var projectId :- Deref(gcp.secretmanager.value.projectId);
      Done(NO_KEYS.(gcp := Some(KesGcp(projectId, gcp.secretmanager.value.endpoint,
                                       gcp.secretmanager.value.credentials))))
  }

  // The first provider present, in the order Vault, AWS, Gemalto, GCP.
  function CompileKeys(cfg: EncryptionConfiguration, codec: Codec): Outcome<(Keys, map<string, string>)> {
    if cfg.vault.Some? then CompileVault(cfg.vault.value, codec)
    else if cfg.aws.Some? then
      var keys :- CompileAws(cfg.aws.value);
      Done((keys, map[]))
    else if cfg.gemalto.Some? then CompileGemalto(cfg.gemalto.value, codec)
    else if cfg.gcp.Some? then
      var keys :- CompileGcp(cfg.gcp.value);
      Done((keys, map[]))
    else Done((NO_KEYS, map[]))
  }

  function Compile(cfg: EncryptionConfiguration, codec: Codec): Outcome<Compiled> {
    var identity :- ClientIdentity(cfg, codec);
    var compiled :- CompileKeys(cfg, codec);
    Done(Compiled(DefaultConfig(identity).(keys := compiled.0), compiled.1))
  }

  // The program: fields of one configuration and entries of one file map assigned step by step.
  method CompileInPlace(cfg: EncryptionConfiguration, codec: Codec) returns (r: Outcome<Compiled>)
    ensures r == Compile(cfg, codec)
  {
    var clientCrtIdentity := "${MINIO_KES_IDENTITY}";
    if cfg.client.Some? {
      if cfg.client.value.crt.None? { return NilDereference; }
      var clientTLSCrt := codec.base64(cfg.client.value.crt.value);
      if clientTLSCrt.None? { return Failed(BadBase64); }
      var identity := codec.identity(clientTLSCrt.value);
      if identity.None? { return Failed(BadCertificate); }
      clientCrtIdentity := identity.value;
    }
    var keys, files := NO_KEYS, map[];
    if cfg.vault.Some? {
      r := CompileVaultInPlace(cfg.vault.value, codec, DefaultConfig(clientCrtIdentity));
      return;
    } else if cfg.aws.Some? {
      keys := keys.(aws := Some(KesAws("", "", "", None)));
      if cfg.aws.value.secretsmanager.Some? {
        var manager := cfg.aws.value.secretsmanager.value;
        if manager.endpoint.None? || manager.region.None? { return NilDereference; }
        keys := keys.(aws := Some(KesAws(manager.endpoint.value, manager.region.value, manager.kmskey, None)));
        if manager.credentials.Some? {
          var credentials := manager.credentials.value;
          if credentials.accesskey.None? || credentials.secretkey.None? { return NilDereference; }
          var login := KesAwsLogin(credentials.accesskey.value, credentials.secretkey.value, credentials.token);
          keys := keys.(aws := Some(keys.aws.value.(login := Some(login))));
        }
      }
    } else if cfg.gemalto.Some? {
      r := CompileGemaltoInPlace(cfg.gemalto.value, codec, DefaultConfig(clientCrtIdentity));
      return;
    } else if cfg.gcp.Some? {
      keys := keys.(gcp := Some(KesGcp("", "", None)));
      if cfg.gcp.value.secretmanager.Some? {
        var manager := cfg.gcp.value.secretmanager.value;
        if manager.projectId.None? { return NilDereference; }
        keys := keys.(gcp := Some(KesGcp(manager.projectId.value, manager.endpoint, None)));
        if manager.credentials.Some? {
          keys := keys.(gcp := Some(keys.gcp.value.(credentials := manager.credentials)));
        }
      }
    }
    return Done(Compiled(DefaultConfig(clientCrtIdentity).(keys := keys), files));
  }

  method CompileVaultInPlace(vault: Vault, codec: Codec, config: ServerConfig) returns (r: Outcome<Compiled>)
    ensures r == match CompileVault(vault, codec)
                 case Done((keys, files)) => Done(Compiled(config.(keys := keys), files))
                 case Failed(e) => Failed(e)
                 case NilDereference => NilDereference
  {
    if vault.endpoint.None? { return NilDereference; }
    var kes := KesVault(vault.endpoint.value, vault.engine, vault.namespace, vault.prefix, None, None, 10);
    if vault.approle.None? { return Failed(ApproleMissing); }
    var approle := vault.approle.value;
    if approle.id.None? || approle.secret.None? { return NilDereference; }
    kes := kes.(appRole := Some(KesAppRole(approle.engine, approle.id.value, approle.secret.value, 15)));
    var mTLSCertificates: map<string, string> := map[];
    if vault.tls.Some? {
      var mounted := MountVaultFiles(vault, codec);
      if mounted.Failed? { return Failed(mounted.error); }
      kes := kes.(tls := Some(mounted.value.0));
      mTLSCertificates := mounted.value.1;
    }
    return Done(Compiled(config.(keys := NO_KEYS.(vault := Some(kes))), mTLSCertificates));
  }

  method MountVaultFiles(vault: Vault, codec: Codec) returns (r: Outcome<(KesVaultTls, map<string, string>)>)
    requires vault.tls.Some?
    ensures r == match VaultFiles(vault, codec)
                 case Done(files) => Done((VaultPaths(files), files))
                 case Failed(e) => Failed(e)
                 case NilDereference => NilDereference
    ensures !r.NilDereference?
  {
    var mTLSCertificates: map<string, string> := map[];
    var tls := KesVaultTls("", "", "");
    ghost var crt, key, ca := DecodeFile(codec, "client.crt", vault.tls.value.crt),
                              DecodeFile(codec, "client.key", vault.tls.value.key),
                              DecodeFile(codec, "ca.crt", vault.tls.value.ca);
    if vault.tls.value.crt != "" {
      var clientCrt := codec.base64(vault.tls.value.crt);
      if clientCrt.None? { return Failed(BadBase64); }
      mTLSCertificates := mTLSCertificates["client.crt" := clientCrt.value];
      tls := tls.(certPath := CLIENT_CRT_PATH);
    }
    assert crt == Done(mTLSCertificates);
    if vault.tls.value.key != "" {
      var clientKey := codec.base64(vault.tls.value.key);
      if clientKey.None? { return Failed(BadBase64); }
      mTLSCertificates := mTLSCertificates["client.key" := clientKey.value];
      tls := tls.(keyPath := CLIENT_KEY_PATH);
    }
    assert key.Done? && mTLSCertificates == crt.value + key.value;
    if vault.tls.value.ca != "" {
      var caCrt := codec.base64(vault.tls.value.ca);
      if caCrt.None? { return Failed(BadBase64); }
      mTLSCertificates := mTLSCertificates["ca.crt" := caCrt.value];
      tls := tls.(caPath := CLIENT_CA_PATH);
    }
    assert ca.Done? && mTLSCertificates == crt.value + key.value + ca.value;
    return Done((tls, mTLSCertificates));
  }

  method CompileGemaltoInPlace(gemalto: Gemalto, codec: Codec, config: ServerConfig) returns (r: Outcome<Compiled>)
    ensures r == match CompileGemalto(gemalto, codec)
                 case Done((keys, files)) => Done(Compiled(config.(keys := keys), files))
                 case Failed(e) => Failed(e)
                 case NilDereference => NilDereference
  {
    var kes := KesGemalto("", None, None);
    var mTLSCertificates: map<string, string> := map[];
    if gemalto.keysecure.Some? {
      var keySecure := gemalto.keysecure.value;
      if keySecure.endpoint.None? { return NilDereference; }
      kes := kes.(endpoint := keySecure.endpoint.value);
      if keySecure.tls.Some? {
        if keySecure.tls.value.ca.Some? {
          var caCrt := codec.base64(keySecure.tls.value.ca.value);
          if caCrt.None? { return Failed(BadBase64); }
          mTLSCertificates := mTLSCertificates["ca.crt" := caCrt.value];
          kes := kes.(tlsCaPath := Some(CLIENT_CA_PATH));
        }
      }
      if keySecure.credentials.Some? {
        var credentials := keySecure.credentials.value;
        if credentials.token.None? || credentials.domain.None? { return NilDereference; }
        kes := kes.(credentials := Some(KesGemaltoCredentials(credentials.token.value, credentials.domain.value, 15)));
      }
    }
    return Done(Compiled(config.(keys := NO_KEYS.(gemalto := Some(kes))), mTLSCertificates));
  }

  // Exactly one provider is configured, the first one present; only Vault and Gemalto mount files.
  lemma FirstProviderOnly(cfg: EncryptionConfiguration, codec: Codec)
    requires Compile(cfg, codec).Done?
    ensures var Compiled(config, files) := Compile(cfg, codec).value;
      && (config.keys.vault.Some? <==> cfg.vault.Some?)
      && (config.keys.aws.Some? <==> cfg.vault.None? && cfg.aws.Some?)
      && (config.keys.gemalto.Some? <==> cfg.vault.None? && cfg.aws.None? && cfg.gemalto.Some?)
      && (config.keys.gcp.Some? <==> cfg.vault.None? && cfg.aws.None? && cfg.gemalto.None? && cfg.gcp.Some?)
      && (config.keys.vault.Some? ==> CompileVault(cfg.vault.value, codec) == Done((config.keys, files)))
      && (config.keys.gemalto.Some? ==> CompileGemalto(cfg.gemalto.value, codec) == Done((config.keys, files)))
      && (config.keys.vault.None? && config.keys.gemalto.None? ==> files == map[])
  {
  }

  // A file is there exactly if its text was given; it is the decoded text, and its path is set.
  predicate FileMounted(files: map<string, string>, name: string, text: string, codec: Codec, path: string,
                        mountPath: string) {
    if text == "" then name !in files && path == ""
    else name in files && Some(files[name]) == codec.base64(text) && path == mountPath
  }

  lemma VaultPathsMatchFiles(vault: Vault, codec: Codec)
    requires CompileVault(vault, codec).Done?
    ensures var (keys, files) := CompileVault(vault, codec).value;
      && files.Keys <= {"client.crt", "client.key", "ca.crt"}
      && keys.vault.Some? && (keys.vault.value.tls.Some? <==> vault.tls.Some?)
      && (vault.tls.None? ==> files == map[])
      && (vault.tls.Some? ==>
            var tls, paths := vault.tls.value, keys.vault.value.tls.value;
            && FileMounted(files, "client.crt", tls.crt, codec, paths.certPath, CLIENT_CRT_PATH)
            && FileMounted(files, "client.key", tls.key, codec, paths.keyPath, CLIENT_KEY_PATH)
            && FileMounted(files, "ca.crt", tls.ca, codec, paths.caPath, CLIENT_CA_PATH))
  {
  }

  lemma GemaltoPathsMatchFiles(gemalto: Gemalto, codec: Codec)
    requires CompileGemalto(gemalto, codec).Done?
    ensures var (keys, files) := CompileGemalto(gemalto, codec).value;
      && files.Keys <= {"ca.crt"} && keys.gemalto.Some?
      && keys.gemalto.value.tlsCaPath == (if "ca.crt" in files then Some(CLIENT_CA_PATH) else None)
      && ("ca.crt" in files <==> gemalto.keysecure.Some? && gemalto.keysecure.value.tls.Some?
                                 && gemalto.keysecure.value.tls.value.ca.Some?)
      && ("ca.crt" in files ==> Some(files["ca.crt"]) == codec.base64(gemalto.keysecure.value.tls.value.ca.value))
  {
  }

  // The one policy admits exactly the client: its certificate's identity if the request has one, and
  // otherwise the one the operator generates and puts in place of the variable.
  lemma PolicyAdmitsTheClient(cfg: EncryptionConfiguration, codec: Codec)
    requires Compile(cfg, codec).Done?
    ensures var policies := Compile(cfg, codec).value.config.policies;
      && policies.Keys == {"default-policy"}
      && policies["default-policy"].paths
         == ["/v1/key/create/my-minio-key", "/v1/key/generate/my-minio-key", "/v1/key/decrypt/my-minio-key"]
      && |policies["default-policy"].identities| == 1
      && var identity := policies["default-policy"].identities[0];
      && (cfg.client.None? ==> identity == "${MINIO_KES_IDENTITY}")
      && (cfg.client.Some? ==>
            && cfg.client.value.crt.Some? && codec.base64(cfg.client.value.crt.value).Some?
            && codec.identity(codec.base64(cfg.client.value.crt.value).value) == Some(identity))
  {
  }

  // The rest of the configuration depends on nothing.
  lemma ServerSettings(cfg: EncryptionConfiguration, codec: Codec)
    requires Compile(cfg, codec).Done?
    ensures var config := Compile(cfg, codec).value.config;
      && config.addr == "0.0.0.0:7373" && config.root == "disabled"
      && config.keyPath == "/tmp/kes/server.key" && config.certPath == "/tmp/kes/server.crt"
      && config.cacheAnySeconds == 5 * 60 && config.cacheUnusedSeconds == 20
      && config.errorLog == "on" && config.auditLog == "off"
  {
  }

  // Where the files of the client secret are mounted, and how often the providers are asked again.
  lemma MountPaths(cfg: EncryptionConfiguration, codec: Codec)
    requires Compile(cfg, codec).Done?
    ensures var Compiled(config, files) := Compile(cfg, codec).value;
      && (config.keys.vault.Some? ==>
            && var vault := config.keys.vault.value;
            && vault.pingSeconds == 10 && vault.appRole.Some? && vault.appRole.value.retrySeconds == 15
            && (vault.tls.Some? ==>
                  && vault.tls.value.certPath == (if "client.crt" in files then "/tmp/kes/client.crt" else "")
                  && vault.tls.value.keyPath == (if "client.key" in files then "/tmp/kes/client.key" else "")
                  && vault.tls.value.caPath == (if "ca.crt" in files then "/tmp/kes/ca.crt" else "")))
      && (config.keys.gemalto.Some? ==>
            && var gemalto := config.keys.gemalto.value;
            && (gemalto.credentials.Some? ==> gemalto.credentials.value.retrySeconds == 15)
            && gemalto.tlsCaPath == if "ca.crt" in files then Some("/tmp/kes/ca.crt") else None)
  {
  }

  // A text that is empty or can be decoded.
  predicate DecodesOrEmpty(codec: Codec, text: string) { text == "" || codec.base64(text).Some? }

  // A request compiles exactly if its pointers are set, its client certificate has an identity, Vault
  // has its AppRole, and the certificates of the first provider can be decoded.
  lemma CompilesExactly(cfg: EncryptionConfiguration, codec: Codec)
    ensures Compile(cfg, codec).Done? <==>
              && Dereferenceable(cfg)
              && (cfg.client.Some? ==>
                    && codec.base64(cfg.client.value.crt.value).Some?
                    && codec.identity(codec.base64(cfg.client.value.crt.value).value).Some?)
              && (cfg.vault.Some? ==>
                    && cfg.vault.value.approle.Some?
                    && (cfg.vault.value.tls.Some? ==>
                          var tls := cfg.vault.value.tls.value;
                          && DecodesOrEmpty(codec, tls.crt) && DecodesOrEmpty(codec, tls.key)
                          && DecodesOrEmpty(codec, tls.ca)))
              && (cfg.vault.None? && cfg.aws.None? && cfg.gemalto.Some? && cfg.gemalto.value.keysecure.Some? ==>
                    var tls := cfg.gemalto.value.keysecure.value.tls;
                    tls.Some? && tls.value.ca.Some? ==> codec.base64(tls.value.ca.value).Some?)
  {
  }

  // Which error a request meets.
  lemma ErrorsExactly(cfg: EncryptionConfiguration, codec: Codec)
    ensures Compile(cfg, codec) == Failed(BadCertificate) <==>
              && cfg.client.Some? && cfg.client.value.crt.Some? && codec.base64(cfg.client.value.crt.value).Some?
              && codec.identity(codec.base64(cfg.client.value.crt.value).value).None?
    ensures Compile(cfg, codec) == Failed(ApproleMissing) <==>
              && (cfg.client.Some? ==>
                    && cfg.client.value.crt.Some? && codec.base64(cfg.client.value.crt.value).Some?
                    && codec.identity(codec.base64(cfg.client.value.crt.value).value).Some?)
              && cfg.vault.Some? && cfg.vault.value.endpoint.Some? && cfg.vault.value.approle.None?
    ensures Compile(cfg, codec).Failed? ==>
              Compile(cfg, codec).error == BadCertificate || Compile(cfg, codec).error == ApproleMissing
              || Compile(cfg, codec).error == BadBase64
  {
  }

  // Two requests with the same client certificate and the same first provider compile alike:
  // neither the other providers nor the rest of the request matter.

  predicate SameFirstProvider(a: EncryptionConfiguration, b: EncryptionConfiguration) {
    && a.vault == b.vault
    && (a.vault.None? ==> a.aws == b.aws)
    && (a.vault.None? && a.aws.None? ==> a.gemalto == b.gemalto)
    && (a.vault.None? && a.aws.None? && a.gemalto.None? ==> a.gcp == b.gcp)
  }

  lemma OnlyFirstProviderMatters(a: EncryptionConfiguration, b: EncryptionConfiguration, codec: Codec)
    requires SameFirstProvider(a, b)
    requires a.client.Some? == b.client.Some? && (a.client.Some? ==> a.client.value.crt == b.client.value.crt)
    ensures Compile(a, codec) == Compile(b, codec)
  {
    assert ClientIdentity(a, codec) == ClientIdentity(b, codec);
    assert CompileKeys(a, codec) == CompileKeys(b, codec);
  }

  // No setting is lost or misplaced: the request can be read back from the configuration.

  function VaultOf(kes: KesVault): Vault
    requires kes.appRole.Some?
  {
    var role := kes.appRole.value;
    Vault(Some(Approle(role.enginePath, Some(role.id), Some(role.secret))), Some(kes.endpoint), kes.enginePath,
          kes.namespace, kes.prefix, None)
  }

  lemma VaultReadsBack(vault: Vault, codec: Codec)
    requires CompileVault(vault, codec).Done?
    ensures var kes := CompileVault(vault, codec).value.0.vault;
      kes.Some? && kes.value.appRole.Some? && VaultOf(kes.value) == vault.(tls := None)
  {
  }

  function AwsOf(kes: KesAws): Aws {
    var credentials := if kes.login.None? then None else
      Some(AwsCredentials(Some(kes.login.value.accessKey), Some(kes.login.value.secretKey),
                          kes.login.value.sessionToken));
    Aws(Some(SecretsManager(credentials, Some(kes.endpoint), kes.kmsKey, Some(kes.region))))
  }

  lemma AwsReadsBack(aws: Aws)
    requires CompileAws(aws).Done? && aws.secretsmanager.Some?
    ensures var kes := CompileAws(aws).value.aws; kes.Some? && AwsOf(kes.value) == aws
  {
  }

  function GemaltoOf(kes: KesGemalto): Gemalto {
    var credentials := if kes.credentials.None? then None else
      Some(GemaltoCredentials(Some(kes.credentials.value.domain), Some(kes.credentials.value.token)));
    Gemalto(Some(KeySecure(credentials, Some(kes.endpoint), None)))
  }

  lemma GemaltoReadsBack(gemalto: Gemalto, codec: Codec)
    requires CompileGemalto(gemalto, codec).Done? && gemalto.keysecure.Some?
    ensures var kes := CompileGemalto(gemalto, codec).value.0.gemalto;
      kes.Some? && GemaltoOf(kes.value) == Gemalto(Some(gemalto.keysecure.value.(tls := None)))
  {
  }

  function GcpOf(kes: KesGcp): Gcp { Gcp(Some(GcpSecretManager(kes.credentials, kes.endpoint, Some(kes.projectId)))) }

  lemma GcpReadsBack(gcp: Gcp)
    requires CompileGcp(gcp).Done? && gcp.secretmanager.Some?
    ensures var kes := CompileGcp(gcp).value.gcp; kes.Some? && GcpOf(kes.value) == gcp
  {
  }

  // Every pointer the compiler follows, given the provider it picks.
  predicate Dereferenceable(cfg: EncryptionConfiguration) {
    && (cfg.client.Some? ==> cfg.client.value.crt.Some?)
    && if cfg.vault.Some? then
         && cfg.vault.value.endpoint.Some?
         && (cfg.vault.value.approle.Some? ==>
               cfg.vault.value.approle.value.id.Some? && cfg.vault.value.approle.value.secret.Some?)
       else if cfg.aws.Some? then
         cfg.aws.value.secretsmanager.Some? ==>
           var m := cfg.aws.value.secretsmanager.value;
           && m.endpoint.Some? && m.region.Some?
           && (m.credentials.Some? ==> m.credentials.value.accesskey.Some? && m.credentials.value.secretkey.Some?)
       else if cfg.gemalto.Some? then
         cfg.gemalto.value.keysecure.Some? ==>
           var k := cfg.gemalto.value.keysecure.value;
           && k.endpoint.Some?
           && (k.credentials.Some? ==> k.credentials.value.token.Some? && k.credentials.value.domain.Some?)
       else
         cfg.gcp.Some? && cfg.gcp.value.secretmanager.Some? ==> cfg.gcp.value.secretmanager.value.projectId.Some?
  }

  lemma DereferenceableNeverPanics(cfg: EncryptionConfiguration, codec: Codec)
    requires Dereferenceable(cfg)
    ensures !Compile(cfg, codec).NilDereference?
  {
  }

  // A codec that decodes everything: no error hides a nil pointer.
  function Lenient(): Codec {
    Codec((s: string) => Some(s), (s: string) => Some(s), (c: ServerConfig) => Some(""))
  }

  // The compiler is safe whatever the texts decode to exactly if those pointers are set.
  lemma SafeExactlyWhenDereferenceable(cfg: EncryptionConfiguration)
    ensures (forall codec :: !Compile(cfg, codec).NilDereference?) <==> Dereferenceable(cfg)
  {
    if Dereferenceable(cfg) {
      forall codec ensures !Compile(cfg, codec).NilDereference? {
        DereferenceableNeverPanics(cfg, codec);
      }
    } else {
      assert Compile(cfg, Lenient()).NilDereference?;
    }
  }

  // A validated request never dereferences nil and never misses its AppRole.
  lemma ValidatedNeverPanics(cfg: EncryptionConfiguration, codec: Codec)
    requires Validate(cfg).None?
    ensures !Compile(cfg, codec).NilDereference? && Compile(cfg, codec) != Failed(ApproleMissing)
  {
    ValidMeansComplete(cfg);
    assert Dereferenceable(cfg);
    DereferenceableNeverPanics(cfg, codec);
  }
}
