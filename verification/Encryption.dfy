// models/encryption_configuration.go and its parts: the request body of an encryption update and
// its generated validators. Pointers are options; only absence makes a required field invalid.
module Encryption {
  import opened TenantSecrets
  import opened Wrappers

  datatype Approle = Approle(engine: string, id: Option<string>, secret: Option<string>)
  datatype VaultTls = VaultTls(ca: string, crt: string, key: string)
  datatype Vault = Vault(approle: Option<Approle>, endpoint: Option<string>, engine: string, namespace: string,
                         prefix: string, tls: Option<VaultTls>)

  datatype AwsCredentials = AwsCredentials(accesskey: Option<string>, secretkey: Option<string>, token: string)
  datatype SecretsManager = SecretsManager(credentials: Option<AwsCredentials>, endpoint: Option<string>,
                                           kmskey: string, region: Option<string>)
  datatype Aws = Aws(secretsmanager: Option<SecretsManager>)

  datatype GemaltoCredentials = GemaltoCredentials(domain: Option<string>, token: Option<string>)
  datatype GemaltoTls = GemaltoTls(ca: Option<string>)
  datatype KeySecure = KeySecure(credentials: Option<GemaltoCredentials>, endpoint: Option<string>,
                                 tls: Option<GemaltoTls>)
  datatype Gemalto = Gemalto(keysecure: Option<KeySecure>)

  datatype GcpCredentials = GcpCredentials(clientEmail: string, clientId: string, privateKey: string,
                                           privateKeyId: string)
  datatype GcpSecretManager = GcpSecretManager(credentials: Option<GcpCredentials>, endpoint: string,
                                               projectId: Option<string>)
  datatype Gcp = Gcp(secretmanager: Option<GcpSecretManager>)

  datatype EncryptionConfiguration = EncryptionConfiguration(
    aws: Option<Aws>, client: Option<KeyPair>, gcp: Option<Gcp>, gemalto: Option<Gemalto>,
    image: string, replicas: string, server: Option<KeyPair>, vault: Option<Vault>)

  datatype ValidationError = Required(path: string) | Composite(errors: seq<ValidationError>)

  // Validate of every model: collect the errors of the fields, and wrap them if there are any.
  function Collect(checks: seq<Option<ValidationError>>): Option<ValidationError> {
    var res := Present(checks);
    if |res| > 0 then Some(Composite(res)) else None
  }

  function Present(checks: seq<Option<ValidationError>>): (res: seq<ValidationError>)
    ensures res == [] <==> forall i | 0 <= i < |checks| :: checks[i].None?
  {
    if checks == [] then [] else (if checks[0].Some? then [checks[0].value] else []) + Present(checks[1..])
  }

  function RequiredField<T>(path: string, field: Option<T>): Option<ValidationError> {
    if field.None? then Some(Required(path)) else None
  }

  function ValidateKeyPair(m: KeyPair): Option<ValidationError> {
    Collect([RequiredField("crt", m.crt), RequiredField("key", m.key)])
  }

  function ValidateApprole(m: Approle): Option<ValidationError> {
    Collect([RequiredField("approle.id", m.id), RequiredField("approle.secret", m.secret)])
  }

  function ValidateVault(m: Vault): Option<ValidationError> {
    Collect([if m.approle.None? then Some(Required("approle")) else ValidateApprole(m.approle.value),
             RequiredField("endpoint", m.endpoint)])
  }

  function ValidateAwsCredentials(m: AwsCredentials): Option<ValidationError> {
    Collect([RequiredField("secretsmanager.credentials.accesskey", m.accesskey),
             RequiredField("secretsmanager.credentials.secretkey", m.secretkey)])
  }

  function ValidateSecretsManager(m: SecretsManager): Option<ValidationError> {
    Collect([if m.credentials.None? then Some(Required("secretsmanager.credentials"))
             else ValidateAwsCredentials(m.credentials.value),
             RequiredField("secretsmanager.endpoint", m.endpoint),
             RequiredField("secretsmanager.region", m.region)])
  }

  function ValidateAws(m: Aws): Option<ValidationError> {
    Collect([if m.secretsmanager.None? then Some(Required("secretsmanager"))
             else ValidateSecretsManager(m.secretsmanager.value)])
  }

  function ValidateGemaltoCredentials(m: GemaltoCredentials): Option<ValidationError> {
    Collect([RequiredField("keysecure.credentials.domain", m.domain),
             RequiredField("keysecure.credentials.token", m.token)])
  }

  function ValidateKeySecure(m: KeySecure): Option<ValidationError> {
    Collect([if m.credentials.None? then Some(Required("keysecure.credentials"))
             else ValidateGemaltoCredentials(m.credentials.value),
             RequiredField("keysecure.endpoint", m.endpoint),
             if m.tls.None? then None else Collect([RequiredField("keysecure.tls.ca", m.tls.value.ca)])])
  }

  function ValidateGemalto(m: Gemalto): Option<ValidationError> {
    Collect([if m.keysecure.None? then Some(Required("keysecure")) else ValidateKeySecure(m.keysecure.value)])
  }

  // The credentials of GCP are optional and have no required field.
  function ValidateGcpSecretManager(m: GcpSecretManager): Option<ValidationError> {
    Collect([RequiredField("secretmanager.project_id", m.projectId)])
  }

  function ValidateGcp(m: Gcp): Option<ValidationError> {
    Collect([if m.secretmanager.None? then Some(Required("secretmanager"))
             else ValidateGcpSecretManager(m.secretmanager.value)])
  }

  // A part that is absent is not validated.
  function ValidatePresent<T>(part: Option<T>, validate: T -> Option<ValidationError>): Option<ValidationError> {
    if part.None? then None else validate(part.value)
  }

  function Validate(m: EncryptionConfiguration): Option<ValidationError> {
    Collect([ValidatePresent(m.aws, ValidateAws), ValidatePresent(m.client, ValidateKeyPair),
             ValidatePresent(m.gcp, ValidateGcp), ValidatePresent(m.gemalto, ValidateGemalto),
             ValidatePresent(m.server, ValidateKeyPair), ValidatePresent(m.vault, ValidateVault)])
  }

  // What validity means: every part that is present has its required fields.

  predicate KeyPairComplete(m: KeyPair) { m.crt.Some? && m.key.Some? }

  predicate VaultComplete(m: Vault) {
    m.endpoint.Some? && m.approle.Some? && m.approle.value.id.Some? && m.approle.value.secret.Some?
  }

  predicate AwsComplete(m: Aws) {
    m.secretsmanager.Some? &&
    var s := m.secretsmanager.value;
    s.endpoint.Some? && s.region.Some? && s.credentials.Some?
    && s.credentials.value.accesskey.Some? && s.credentials.value.secretkey.Some?
  }

  predicate GemaltoComplete(m: Gemalto) {
    m.keysecure.Some? &&
    var k := m.keysecure.value;
    k.endpoint.Some? && k.credentials.Some? && k.credentials.value.domain.Some? && k.credentials.value.token.Some?
    && (k.tls.Some? ==> k.tls.value.ca.Some?)
  }

  predicate GcpComplete(m: Gcp) { m.secretmanager.Some? && m.secretmanager.value.projectId.Some? }

  predicate Complete(m: EncryptionConfiguration) {
    && (m.aws.Some? ==> AwsComplete(m.aws.value))
    && (m.client.Some? ==> KeyPairComplete(m.client.value))
    && (m.gcp.Some? ==> GcpComplete(m.gcp.value))
    && (m.gemalto.Some? ==> GemaltoComplete(m.gemalto.value))
    && (m.server.Some? ==> KeyPairComplete(m.server.value))
    && (m.vault.Some? ==> VaultComplete(m.vault.value))
  }

  lemma CollectTwo(a: Option<ValidationError>, b: Option<ValidationError>)
    ensures Collect([a, b]).None? <==> a.None? && b.None?
  {
    var checks := [a, b];
    assert checks[0] == a && checks[1] == b;
  }

  lemma CollectThree(a: Option<ValidationError>, b: Option<ValidationError>, c: Option<ValidationError>)
    ensures Collect([a, b, c]).None? <==> a.None? && b.None? && c.None?
  {
    var checks := [a, b, c];
    assert checks[0] == a && checks[1] == b && checks[2] == c;
  }

  lemma CollectSix(a: Option<ValidationError>, b: Option<ValidationError>, c: Option<ValidationError>,
                   d: Option<ValidationError>, e: Option<ValidationError>, f: Option<ValidationError>)
    ensures Collect([a, b, c, d, e, f]).None? <==> a.None? && b.None? && c.None? && d.None? && e.None? && f.None?
  {
    var checks := [a, b, c, d, e, f];
    assert checks[0] == a && checks[1] == b && checks[2] == c && checks[3] == d && checks[4] == e && checks[5] == f;
  }

  lemma CollectOne(a: Option<ValidationError>)
    ensures Collect([a]).None? <==> a.None?
  {
    var checks := [a];
    assert checks[0] == a;
  }

  lemma KeyPairAccepted(m: KeyPair)
    ensures ValidateKeyPair(m).None? <==> KeyPairComplete(m)
  {
    CollectTwo(RequiredField("crt", m.crt), RequiredField("key", m.key));
  }

  lemma VaultAccepted(m: Vault)
    ensures ValidateVault(m).None? <==> VaultComplete(m)
  {
    if m.approle.Some? {
      var a := m.approle.value;
      CollectTwo(RequiredField("approle.id", a.id), RequiredField("approle.secret", a.secret));
    }
    CollectTwo(if m.approle.None? then Some(Required("approle")) else ValidateApprole(m.approle.value),
               RequiredField("endpoint", m.endpoint));
  }

  lemma AwsAccepted(m: Aws)
    ensures ValidateAws(m).None? <==> AwsComplete(m)
  {
    if m.secretsmanager.Some? {
      var s := m.secretsmanager.value;
      if s.credentials.Some? {
        var c := s.credentials.value;
        CollectTwo(RequiredField("secretsmanager.credentials.accesskey", c.accesskey),
                   RequiredField("secretsmanager.credentials.secretkey", c.secretkey));
      }
      CollectThree(if s.credentials.None? then Some(Required("secretsmanager.credentials"))
                   else ValidateAwsCredentials(s.credentials.value),
                   RequiredField("secretsmanager.endpoint", s.endpoint),
                   RequiredField("secretsmanager.region", s.region));
    }
    CollectOne(if m.secretsmanager.None? then Some(Required("secretsmanager"))
               else ValidateSecretsManager(m.secretsmanager.value));
  }

  lemma GemaltoAccepted(m: Gemalto)
    ensures ValidateGemalto(m).None? <==> GemaltoComplete(m)
  {
    if m.keysecure.Some? {
      var k := m.keysecure.value;
      if k.credentials.Some? {
        var c := k.credentials.value;
        CollectTwo(RequiredField("keysecure.credentials.domain", c.domain),
                   RequiredField("keysecure.credentials.token", c.token));
      }
      if k.tls.Some? {
        CollectOne(RequiredField("keysecure.tls.ca", k.tls.value.ca));
      }
      CollectThree(if k.credentials.None? then Some(Required("keysecure.credentials"))
                   else ValidateGemaltoCredentials(k.credentials.value),
                   RequiredField("keysecure.endpoint", k.endpoint),
                   if k.tls.None? then None else Collect([RequiredField("keysecure.tls.ca", k.tls.value.ca)]));
    }
    CollectOne(if m.keysecure.None? then Some(Required("keysecure")) else ValidateKeySecure(m.keysecure.value));
  }

  lemma GcpAccepted(m: Gcp)
    ensures ValidateGcp(m).None? <==> GcpComplete(m)
  {
    if m.secretmanager.Some? {
      CollectOne(RequiredField("secretmanager.project_id", m.secretmanager.value.projectId));
    }
    CollectOne(if m.secretmanager.None? then Some(Required("secretmanager"))
               else ValidateGcpSecretManager(m.secretmanager.value));
  }

  // Which fields a validator reports: exactly those that are missing.

  function Paths(e: ValidationError): set<string> {
    match e
    case Required(path) => {path}
    case Composite(errors) => PathsOf(errors)
  }

  function PathsOf(errors: seq<ValidationError>): set<string> {
    if errors == [] then {} else Paths(errors[0]) + PathsOf(errors[1..])
  }

  function Reported(e: Option<ValidationError>): set<string> { if e.None? then {} else Paths(e.value) }

  function Missing<T>(path: string, field: Option<T>): set<string> { if field.None? then {path} else {} }

  lemma {:induction false} PresentReports(checks: seq<Option<ValidationError>>)
    ensures checks == [] ==> PathsOf(Present(checks)) == {}
    ensures checks != [] ==> PathsOf(Present(checks)) == Reported(checks[0]) + PathsOf(Present(checks[1..]))
  {
    if checks == [] {
    } else if checks[0].Some? {
      assert Present(checks)[1..] == Present(checks[1..]);
    } else {
      assert Present(checks) == Present(checks[1..]);
    }
  }

  lemma CollectReports(checks: seq<Option<ValidationError>>)
    ensures Reported(Collect(checks)) == PathsOf(Present(checks))
  {
  }

  lemma ReportsOfOne(a: Option<ValidationError>)
    ensures Reported(Collect([a])) == Reported(a)
  {
    CollectReports([a]);
    PresentReports([a]);
    PresentReports([a][1..]);
  }

  lemma ReportsOfTwo(a: Option<ValidationError>, b: Option<ValidationError>)
    ensures Reported(Collect([a, b])) == Reported(a) + Reported(b)
  {
    CollectReports([a, b]);
    PresentReports([a, b]);
    assert [a, b][1..] == [b];
    PresentReports([b]);
    PresentReports([b][1..]);
  }

  lemma ReportsOfThree(a: Option<ValidationError>, b: Option<ValidationError>, c: Option<ValidationError>)
    ensures Reported(Collect([a, b, c])) == Reported(a) + Reported(b) + Reported(c)
  {
    CollectReports([a, b, c]);
    PresentReports([a, b, c]);
    assert [a, b, c][1..] == [b, c];
    CollectReports([b, c]);
    ReportsOfTwo(b, c);
  }

  lemma KeyPairReports(m: KeyPair)
    ensures Reported(ValidateKeyPair(m)) == Missing("crt", m.crt) + Missing("key", m.key)
  {
    ReportsOfTwo(RequiredField("crt", m.crt), RequiredField("key", m.key));
  }

  lemma VaultReports(m: Vault)
    ensures Reported(ValidateVault(m))
            == Missing("endpoint", m.endpoint) + Missing("approle", m.approle)
               + if m.approle.None? then {}
                 else Missing("approle.id", m.approle.value.id) + Missing("approle.secret", m.approle.value.secret)
  {
    if m.approle.Some? {
      ReportsOfTwo(RequiredField("approle.id", m.approle.value.id),
                   RequiredField("approle.secret", m.approle.value.secret));
    }
    ReportsOfTwo(if m.approle.None? then Some(Required("approle")) else ValidateApprole(m.approle.value),
                 RequiredField("endpoint", m.endpoint));
  }

  lemma AwsReports(m: Aws)
    ensures Reported(ValidateAws(m))
            == if m.secretsmanager.None? then {"secretsmanager"} else
                 var s := m.secretsmanager.value;
                 Missing("secretsmanager.endpoint", s.endpoint) + Missing("secretsmanager.region", s.region)
                 + if s.credentials.None? then {"secretsmanager.credentials"}
                   else Missing("secretsmanager.credentials.accesskey", s.credentials.value.accesskey)
                        + Missing("secretsmanager.credentials.secretkey", s.credentials.value.secretkey)
  {
    if m.secretsmanager.Some? {
      var s := m.secretsmanager.value;
      if s.credentials.Some? {
        ReportsOfTwo(RequiredField("secretsmanager.credentials.accesskey", s.credentials.value.accesskey),
                     RequiredField("secretsmanager.credentials.secretkey", s.credentials.value.secretkey));
      }
      ReportsOfThree(if s.credentials.None? then Some(Required("secretsmanager.credentials"))
                     else ValidateAwsCredentials(s.credentials.value),
                     RequiredField("secretsmanager.endpoint", s.endpoint),
                     RequiredField("secretsmanager.region", s.region));
    }
    ReportsOfOne(if m.secretsmanager.None? then Some(Required("secretsmanager"))
                 else ValidateSecretsManager(m.secretsmanager.value));
  }

  lemma GemaltoReports(m: Gemalto)
    ensures Reported(ValidateGemalto(m))
            == if m.keysecure.None? then {"keysecure"} else
                 var k := m.keysecure.value;
                 Missing("keysecure.endpoint", k.endpoint)
                 + (if k.credentials.None? then {"keysecure.credentials"}
                    else Missing("keysecure.credentials.domain", k.credentials.value.domain)
                         + Missing("keysecure.credentials.token", k.credentials.value.token))
                 + if k.tls.None? then {} else Missing("keysecure.tls.ca", k.tls.value.ca)
  {
    if m.keysecure.Some? {
      var k := m.keysecure.value;
      if k.credentials.Some? {
        ReportsOfTwo(RequiredField("keysecure.credentials.domain", k.credentials.value.domain),
                     RequiredField("keysecure.credentials.token", k.credentials.value.token));
      }
      if k.tls.Some? {
        ReportsOfOne(RequiredField("keysecure.tls.ca", k.tls.value.ca));
      }
      ReportsOfThree(if k.credentials.None? then Some(Required("keysecure.credentials"))
                     else ValidateGemaltoCredentials(k.credentials.value),
                     RequiredField("keysecure.endpoint", k.endpoint),
                     if k.tls.None? then None else Collect([RequiredField("keysecure.tls.ca", k.tls.value.ca)]));
    }
    ReportsOfOne(if m.keysecure.None? then Some(Required("keysecure")) else ValidateKeySecure(m.keysecure.value));
  }

  lemma GcpReports(m: Gcp)
    ensures Reported(ValidateGcp(m))
            == if m.secretmanager.None? then {"secretmanager"}
               else Missing("secretmanager.project_id", m.secretmanager.value.projectId)
  {
    if m.secretmanager.Some? {
      ReportsOfOne(RequiredField("secretmanager.project_id", m.secretmanager.value.projectId));
    }
    ReportsOfOne(if m.secretmanager.None? then Some(Required("secretmanager"))
                 else ValidateGcpSecretManager(m.secretmanager.value));
  }

  // A configuration passes Validate exactly if it is complete.
  lemma ValidMeansComplete(m: EncryptionConfiguration)
    ensures Validate(m).None? <==> Complete(m)
  {
    CollectSix(ValidatePresent(m.aws, ValidateAws), ValidatePresent(m.client, ValidateKeyPair),
               ValidatePresent(m.gcp, ValidateGcp), ValidatePresent(m.gemalto, ValidateGemalto),
               ValidatePresent(m.server, ValidateKeyPair), ValidatePresent(m.vault, ValidateVault));
    forall p: Aws ensures ValidateAws(p).None? <==> AwsComplete(p) { AwsAccepted(p); }
    forall p: KeyPair ensures ValidateKeyPair(p).None? <==> KeyPairComplete(p) { KeyPairAccepted(p); }
    forall p: Gcp ensures ValidateGcp(p).None? <==> GcpComplete(p) { GcpAccepted(p); }
    forall p: Gemalto ensures ValidateGemalto(p).None? <==> GemaltoComplete(p) { GemaltoAccepted(p); }
    forall p: Vault ensures ValidateVault(p).None? <==> VaultComplete(p) { VaultAccepted(p); }
  }
}
