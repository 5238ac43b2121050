// operatorapi/operator_subscription.go: carrying a subscription license to every tenant.
module License {
  import opened Cluster
  import opened TenantConfig
  import opened Wrappers

  const MINIO_SUBNET_LICENSE := "MINIO_SUBNET_LICENSE"
  const CONSOLE_SUBNET_LICENSE := "CONSOLE_SUBNET_LICENSE"
  const LICENSE_SECRET_NAME := "subnet-license"

  datatype LicenseError = SecretUnavailable | WrongFormat | SecretNotUpdated | TenantNotUpdated

  // The license in a tenant's environment.

  function Relabel(env: seq<EnvVar>, license: string): seq<EnvVar> {
    if env == [] then [] else
      var last := env[|env| - 1];
      Relabel(env[..|env| - 1], license)
        + [if last.name == MINIO_SUBNET_LICENSE then EnvVar(MINIO_SUBNET_LICENSE, license) else last]
  }

  predicate HasLicense(env: seq<EnvVar>) { exists i :: 0 <= i < |env| && env[i].name == MINIO_SUBNET_LICENSE }

  function Relicensed(env: seq<EnvVar>, license: string): seq<EnvVar> {
    Relabel(env, license) + if HasLicense(env) then [] else [EnvVar(MINIO_SUBNET_LICENSE, license)]
  }

  // Nothing moves: every other variable keeps its place and value, every license variable gets
  // the new license, and a missing one is appended.
  lemma {:induction false} RelabelKeepsOrder(env: seq<EnvVar>, license: string)
    ensures var r := Relabel(env, license);
      && |r| == |env|
      && forall i | 0 <= i < |env| ::
           r[i] == if env[i].name == MINIO_SUBNET_LICENSE then EnvVar(MINIO_SUBNET_LICENSE, license) else env[i]
  {
    if env == [] {
    } else {
      RelabelKeepsOrder(env[..|env| - 1], license);
    }
  }

  // The new environment in full: every variable keeps its place and name, only the license has a new
  // value, and a license that was missing stands at the end.
  lemma RelicensedInPlace(env: seq<EnvVar>, license: string)
    ensures var r := Relicensed(env, license);
      && |env| <= |r| <= |env| + 1
      && (|r| == |env| <==> exists i :: 0 <= i < |env| && env[i].name == "MINIO_SUBNET_LICENSE")
      && (|r| > |env| ==> r == env + [EnvVar("MINIO_SUBNET_LICENSE", license)])
      && forall i | 0 <= i < |env| ::
           && r[i].name == env[i].name
           && r[i].value == if env[i].name == "MINIO_SUBNET_LICENSE" then license else env[i].value
  {
    RelabelKeepsOrder(env, license);
    if !HasLicense(env) {
      assert Relabel(env, license) == env;
    }
  }

  lemma HasLicenseAtEnd(init: seq<EnvVar>, last: EnvVar)
    ensures HasLicense(init + [last]) <==> HasLicense(init) || last.name == MINIO_SUBNET_LICENSE
  {
    var env := init + [last];
    assert env[|init|] == last;
    if HasLicense(init) {
      var i :| 0 <= i < |init| && init[i].name == MINIO_SUBNET_LICENSE;
      assert env[i].name == MINIO_SUBNET_LICENSE;
    }
  }

  lemma EnvMapExtends(env: seq<EnvVar>, last: EnvVar)
    ensures EnvMap(env + [last]) == EnvMap(env)[last.name := last.value]
  {
    assert (env + [last])[..|env|] == env;
  }

  // One more variable, relabelled in a map that is relabelled already.
  lemma RelabelAtEnd(before: Config, after: Config, had: bool, last: EnvVar, license: string)
    requires after == if had then before[MINIO_SUBNET_LICENSE := license] else before
    ensures var longer := before[last.name := last.value];
      if last.name == MINIO_SUBNET_LICENSE then
        after[MINIO_SUBNET_LICENSE := license] == longer[MINIO_SUBNET_LICENSE := license]
      else
        after[last.name := last.value] == if had then longer[MINIO_SUBNET_LICENSE := license] else longer
  {
  }

  lemma {:induction false} RelabelMap(env: seq<EnvVar>, license: string)
    ensures EnvMap(Relabel(env, license))
            == if HasLicense(env) then EnvMap(env)[MINIO_SUBNET_LICENSE := license] else EnvMap(env)
  {
    if env == [] {
    } else {
      var init, last := env[..|env| - 1], env[|env| - 1];
      RelabelMap(init, license);
      HasLicenseAtEnd(init, last);
      assert env == init + [last];
      RelabelAtEnd(EnvMap(init), EnvMap(Relabel(init, license)), HasLicense(init), last, license);
      if last.name == MINIO_SUBNET_LICENSE {
        EnvMapExtends(Relabel(init, license), EnvVar(MINIO_SUBNET_LICENSE, license));
      } else {
        EnvMapExtends(Relabel(init, license), last);
      }
    }
  }

  // The new environment binds the license, and every other name as before.
  lemma RelicensedMap(env: seq<EnvVar>, license: string)
    ensures EnvMap(Relicensed(env, license)) == EnvMap(env)[MINIO_SUBNET_LICENSE := license]
  {
    RelabelMap(env, license);
    if HasLicense(env) {
      assert Relicensed(env, license) == Relabel(env, license);
    } else {
      EnvMapExtends(Relabel(env, license), EnvVar(MINIO_SUBNET_LICENSE, license));
    }
  }

  method RelicenseEnv(env: seq<EnvVar>, license: string) returns (updated: seq<EnvVar>)
    ensures updated == Relicensed(env, license)
  {
    updated := [];
    var licenseIsSet := false;
    for i := 0 to |env|
      invariant updated == Relabel(env[..i], license)
      invariant licenseIsSet <==> exists k :: 0 <= k < i && env[k].name == MINIO_SUBNET_LICENSE
    {
      assert env[..i + 1][..i] == env[..i];
      if env[i].name == MINIO_SUBNET_LICENSE {
        updated := updated + [EnvVar(MINIO_SUBNET_LICENSE, license)];
        licenseIsSet := true;
      } else {
        updated := updated + [env[i]];
      }
    }
    assert env[..|env|] == env;
    if !licenseIsSet {
      updated := updated + [EnvVar(MINIO_SUBNET_LICENSE, license)];
    }
  }

  // The license in a tenant's configuration file.

  // The configuration that is printed back: licensed, and without the two keys of the parser.
  function Licensed(config: Config, license: string): Config {
    config[MINIO_SUBNET_LICENSE := license] - PARSER_KEYS
  }

  // The secret now holds the license, printed in some order.
  ghost predicate Rewritten(before: Secret, after: Secret, parse: Parser, license: string) {
    && "config.env" in before.data
    && exists order ::
         && Iterates(order, Licensed(parse(before.data["config.env"]), license))
         && after == before.(data := map["config.env" := Printed(order)])
  }

  ghost predicate FileCarries(secret: Secret, parse: Parser, license: string) {
    && "config.env" in secret.data
    && MINIO_SUBNET_LICENSE in parse(secret.data["config.env"])
    && parse(secret.data["config.env"])[MINIO_SUBNET_LICENSE] == license
  }

  // The bindings other than the license and the parser's own keys.
  function Others(config: Config): Config { config - (PARSER_KEYS + {MINIO_SUBNET_LICENSE}) }

  // The bindings that are printed back: all those read but the parser's two, and the license.
  lemma LicensedKeys(config: Config, license: string, key: string)
    ensures key in Licensed(config, license)
            <==> (key == "MINIO_SUBNET_LICENSE" || key in config) && key != "accesskey" && key != "secretkey"
    ensures key in Licensed(config, license) ==>
              Licensed(config, license)[key] == if key == "MINIO_SUBNET_LICENSE" then license else config[key]
  {
  }

  // Of a rewritten secret everything but the data is kept, and of the data only the file.
  lemma RewrittenKeepsTheRest(before: Secret, after: Secret, parse: Parser, license: string)
    requires Rewritten(before, after, parse, license)
    ensures after.kind == before.kind && after.tenant == before.tenant && after.immutable == before.immutable
    ensures after.data.Keys == {"config.env"}
  {
  }

  lemma ParserReadsBack(parse: Parser, order: seq<(string, string)>)
    requires ParserContract(parse) && Iterates(order, Bindings(order)) && Printable(Bindings(order))
    ensures parse(Printed(order)) - PARSER_KEYS == Bindings(order) - PARSER_KEYS
  {
    assert ReadsBack(parse, order);
  }

  lemma ReadLicensed(config: Config, read: Config, license: string)
    requires read - PARSER_KEYS == Licensed(config, license) - PARSER_KEYS
    ensures MINIO_SUBNET_LICENSE in read && read[MINIO_SUBNET_LICENSE] == license
    ensures Others(read) == Others(config)
  {
    assert MINIO_SUBNET_LICENSE in Licensed(config, license) - PARSER_KEYS;
    assert read[MINIO_SUBNET_LICENSE] == (read - PARSER_KEYS)[MINIO_SUBNET_LICENSE];
    forall k ensures (k in Others(read) <==> k in Others(config))
                     && (k in Others(read) ==> Others(read)[k] == Others(config)[k]) {
      assert k in Others(read) <==> k in read - PARSER_KEYS && k != MINIO_SUBNET_LICENSE;
      assert k in Others(read) ==> Others(read)[k] == (read - PARSER_KEYS)[k];
    }
  }

  lemma LicensedIsPrintable(config: Config, license: string)
    requires Printable(config) && '\n' !in license
    ensures Printable(Licensed(config, license))
  {
  }

  // A rewritten file carries the license and reads as before on every other key.
  lemma RewritingKeepsOthers(before: Secret, after: Secret, parse: Parser, license: string)
    requires ParserContract(parse) && '\n' !in license && Rewritten(before, after, parse, license)
    ensures FileCarries(after, parse, license)
    ensures Others(parse(after.data["config.env"])) == Others(parse(before.data["config.env"]))
  {
    var config := parse(before.data["config.env"]);
    var order :| Iterates(order, Licensed(config, license))
                 && after == before.(data := map["config.env" := Printed(order)]);
    assert FindsLines(parse, before.data["config.env"]);
    LicensedIsPrintable(config, license);
    ParserReadsBack(parse, order);
    ReadLicensed(config, parse(Printed(order)), license);
  }

  // A license that spans lines can never be read back from a file.
  lemma MultilineLicenseIsLost(secret: Secret, parse: Parser, license: string)
    requires ParserContract(parse) && '\n' in license
    ensures !FileCarries(secret, parse, license)
  {
    assert FindsLines(parse, ConfigText(secret));
  }

  function ConfigId(tenant: Tenant): SecretId
    requires tenant.configuration.Some?
  {
    SecretId(tenant.id.ns, tenant.configuration.value)
  }

  ghost predicate Carries(secrets: map<SecretId, Secret>, tenants: map<TenantId, Tenant>, tenant: Tenant,
                          parse: Parser, license: string) {
    if tenant.configuration.Some? then
      ConfigId(tenant) in secrets && FileCarries(secrets[ConfigId(tenant)], parse, license)
    else
      tenant.id in tenants && EnvCarries(tenants[tenant.id].env, license)
  }

  ghost predicate EnvCarries(env: seq<EnvVar>, license: string) {
    MINIO_SUBNET_LICENSE in EnvMap(env) && EnvMap(env)[MINIO_SUBNET_LICENSE] == license
  }

  // What the update needs of the cluster.
  predicate Updatable(secrets: map<SecretId, Secret>, tenants: map<TenantId, Tenant>, tenant: Tenant) {
    if tenant.configuration.Some? then
      && ConfigId(tenant) in secrets && "config.env" in secrets[ConfigId(tenant)].data
      && !secrets[ConfigId(tenant)].immutable
    else tenant.id in tenants
  }

  method AddSubscriptionLicenseToTenant(client: Client, parse: Parser, license: string, tenant: Tenant)
    returns (failure: Option<LicenseError>)
    modifies client`secrets, client`tenants, client`faulty
    ensures old(client.faulty) ==> client.faulty
    ensures failure.Some? ==> client.secrets == old(client.secrets) && client.tenants == old(client.tenants)
    ensures failure.Some? ==> client.faulty || !Updatable(old(client.secrets), old(client.tenants), tenant)
    ensures failure.None? ==> Updatable(old(client.secrets), old(client.tenants), tenant)
    ensures failure == Some(WrongFormat) ==>
              && tenant.configuration.Some? && ConfigId(tenant) in client.secrets
              && "config.env" !in client.secrets[ConfigId(tenant)].data
    ensures failure.None? && tenant.configuration.Some? ==>
              && client.tenants == old(client.tenants)
              && ConfigId(tenant) in old(client.secrets) && ConfigId(tenant) in client.secrets
              && client.secrets == old(client.secrets)[ConfigId(tenant) := client.secrets[ConfigId(tenant)]]
              && Rewritten(old(client.secrets)[ConfigId(tenant)], client.secrets[ConfigId(tenant)], parse, license)
    ensures failure.None? && tenant.configuration.None? ==>
              && client.secrets == old(client.secrets)
              && client.tenants == old(client.tenants)[tenant.id := tenant.(env := Relicensed(tenant.env, license))]
  {
    if tenant.configuration.Some? {
      var found := client.GetSecret(ConfigId(tenant));
      if found.Err? {
        return Some(SecretUnavailable);
      }
      if "config.env" !in found.value.data {
        return Some(WrongFormat);
      }
      var tenantConfigurationMap := parse(found.value.data["config.env"]);
      var updatedTenantConfiguration := Merge(map[], tenantConfigurationMap);
      assert updatedTenantConfiguration == tenantConfigurationMap;
      updatedTenantConfiguration := updatedTenantConfiguration[MINIO_SUBNET_LICENSE := license];
      updatedTenantConfiguration := updatedTenantConfiguration - {"accesskey"};
      updatedTenantConfiguration := updatedTenantConfiguration - {"secretkey"};
      assert updatedTenantConfiguration == Licensed(tenantConfigurationMap, license);
      var file, order := GenerateTenantConfigurationFile(updatedTenantConfiguration);
      var updated := found.value.(data := map["config.env" := file]);
      assert Rewritten(found.value, updated, parse, license);
      var ok := client.UpdateSecret(ConfigId(tenant), updated);
      if !ok {
        return Some(SecretNotUpdated);
      }
    } else {
      var env := RelicenseEnv(tenant.env, license);
      var ok := client.TenantUpdate(tenant.(env := env));
      if !ok {
        return Some(TenantNotUpdated);
      }
    }
    return None;
  }

  // Rewriting a file a second time, for a tenant that shares it, is one rewriting.
  lemma RewrittenTwice(first: Secret, second: Secret, third: Secret, parse: Parser, license: string)
    requires ParserContract(parse) && '\n' !in license
    requires Rewritten(first, second, parse, license) && Rewritten(second, third, parse, license)
    ensures Rewritten(first, third, parse, license)
  {
    var config := parse(first.data["config.env"]);
    var order :| Iterates(order, Licensed(config, license))
                 && second == first.(data := map["config.env" := Printed(order)]);
    assert FindsLines(parse, first.data["config.env"]);
    LicensedIsPrintable(config, license);
    ParserReadsBack(parse, order);
    LicensedTwice(config, parse(Printed(order)), license);
  }

  lemma LicensedTwice(config: Config, read: Config, license: string)
    requires read - PARSER_KEYS == Licensed(config, license) - PARSER_KEYS
    ensures Licensed(read, license) == Licensed(config, license)
  {
    forall k ensures (k in Licensed(read, license) <==> k in Licensed(config, license))
                     && (k in Licensed(read, license) ==> Licensed(read, license)[k] == Licensed(config, license)[k]) {
      assert k in Licensed(read, license) && k != MINIO_SUBNET_LICENSE
             <==> k in read - PARSER_KEYS && k != MINIO_SUBNET_LICENSE;
      assert k in read - PARSER_KEYS ==> read[k] == (Licensed(config, license) - PARSER_KEYS)[k];
    }
  }

  // What any number of rewrites does to the secrets: the configurations are rewritten and the
  // others are untouched.
  ghost predicate Refreshed(before: map<SecretId, Secret>, after: map<SecretId, Secret>, parse: Parser, license: string,
                            configs: set<SecretId>) {
    && before.Keys == after.Keys && configs <= before.Keys
    && forall id | id in before ::
         if id in configs then Rewritten(before[id], after[id], parse, license) else after[id] == before[id]
  }

  ghost function ConfigIds(tenants: seq<Tenant>): set<SecretId> {
    set t | t in tenants && t.configuration.Some? :: ConfigId(t)
  }

  // What it does to the tenants: a tenant without a configuration is overwritten with its last
  // listing, relicensed.

  function LastListed(listed: seq<Tenant>, id: TenantId): Option<Tenant> {
    if listed == [] then None else
      var last := listed[|listed| - 1];
      if last.id == id && last.configuration.None? then Some(last) else LastListed(listed[..|listed| - 1], id)
  }

  function Relabelled(tenant: Tenant, license: string): Tenant { tenant.(env := Relicensed(tenant.env, license)) }

  // Only the environment of a tenant is changed.
  lemma RelabelledKeepsTheRest(tenant: Tenant, license: string)
    ensures Relabelled(tenant, license).(env := tenant.env) == tenant
    ensures Relabelled(tenant, license).env == Relicensed(tenant.env, license)
  {
  }

  function Relisted(tenants: map<TenantId, Tenant>, listed: seq<Tenant>, license: string): map<TenantId, Tenant> {
    map id | id in tenants ::
      if LastListed(listed, id).Some? then Relabelled(LastListed(listed, id).value, license) else tenants[id]
  }

  // One more tenant: what carried the license still does, and so does this one.
  lemma StepCarries(secrets: map<SecretId, Secret>, tenants: map<TenantId, Tenant>, secrets': map<SecretId, Secret>,
                    tenants': map<TenantId, Tenant>, tenant: Tenant, other: Tenant, parse: Parser, license: string)
    requires ParserContract(parse) && '\n' !in license
    requires if tenant.configuration.Some? then
               && tenants' == tenants && ConfigId(tenant) in secrets && ConfigId(tenant) in secrets'
               && secrets' == secrets[ConfigId(tenant) := secrets'[ConfigId(tenant)]]
               && Rewritten(secrets[ConfigId(tenant)], secrets'[ConfigId(tenant)], parse, license)
             else
               secrets' == secrets && tenants' == tenants[tenant.id := Relabelled(tenant, license)]
    requires other == tenant || Carries(secrets, tenants, other, parse, license)
    ensures Carries(secrets', tenants', other, parse, license)
  {
    if tenant.configuration.Some? {
      var id := ConfigId(tenant);
      RewritingKeepsOthers(secrets[id], secrets'[id], parse, license);
      if other.configuration.Some? {
        assert ConfigId(other) == id || secrets'[ConfigId(other)] == secrets[ConfigId(other)];
      }
    } else {
      RelicensedMap(tenant.env, license);
      assert EnvCarries(tenants'[tenant.id].env, license);
    }
  }

  lemma StepRefreshes(before: map<SecretId, Secret>, secrets: map<SecretId, Secret>, id: SecretId, updated: Secret,
                      parse: Parser, license: string, configs: set<SecretId>)
    requires ParserContract(parse) && '\n' !in license
    requires Refreshed(before, secrets, parse, license, configs) && id in secrets
    requires Rewritten(secrets[id], updated, parse, license)
    ensures Refreshed(before, secrets[id := updated], parse, license, configs + {id})
  {
    if id in configs {
      RewrittenTwice(before[id], secrets[id], updated, parse, license);
    }
  }

  lemma StepRelists(tenants: map<TenantId, Tenant>, listed: seq<Tenant>, tenant: Tenant, license: string)
    requires tenant.configuration.None? ==> tenant.id in tenants
    ensures Relisted(tenants, listed + [tenant], license)
            == if tenant.configuration.Some? then Relisted(tenants, listed, license)
               else Relisted(tenants, listed, license)[tenant.id := Relabelled(tenant, license)]
  {
    assert (listed + [tenant])[..|listed|] == listed;
  }

  lemma StepConfigIds(listed: seq<Tenant>, tenant: Tenant)
    ensures ConfigIds(listed + [tenant])
            == if tenant.configuration.Some? then ConfigIds(listed) + {ConfigId(tenant)} else ConfigIds(listed)
  {
    assert forall t :: t in listed + [tenant] <==> t in listed || t == tenant;
  }

  // The loop of a license refresh over all tenants, which may share configuration secrets.
  // By MultilineLicenseIsLost a license of several lines is carried by no configuration file.
  method UpdateTenantLicenses(client: Client, parse: Parser, license: string, tenants: seq<Tenant>)
    returns (failed: Option<nat>)
    requires ParserContract(parse)
    modifies client`secrets, client`tenants, client`faulty
    ensures old(client.faulty) ==> client.faulty
    ensures failed.Some? ==> failed.value < |tenants|
    ensures failed.Some? ==> client.faulty || !Updatable(client.secrets, client.tenants, tenants[failed.value])
    ensures var done := tenants[..failed.GetOr(|tenants|)];
      && client.tenants == Relisted(old(client.tenants), done, license)
      && ('\n' !in license ==>
            && (forall t | t in done :: Carries(client.secrets, client.tenants, t, parse, license))
            && Refreshed(old(client.secrets), client.secrets, parse, license, ConfigIds(done))
            && (Harmless(old(client.tenants), done) ==>
                  OthersKept(old(client.tenants), old(client.secrets), client.tenants, client.secrets, parse)))
  {
    for i := 0 to |tenants|
      invariant old(client.faulty) ==> client.faulty
      invariant client.tenants == Relisted(old(client.tenants), tenants[..i], license)
      invariant '\n' !in license ==>
                  forall t | t in tenants[..i] :: Carries(client.secrets, client.tenants, t, parse, license)
      invariant '\n' !in license ==>
                  Refreshed(old(client.secrets), client.secrets, parse, license, ConfigIds(tenants[..i]))
    {
      var tenant := tenants[i];
      ghost var done, secrets0, tenants0 := tenants[..i], client.secrets, client.tenants;
      assert tenants[..i + 1] == done + [tenant];
      var failure := AddSubscriptionLicenseToTenant(client, parse, license, tenant);
      if failure.Some? {
        if '\n' !in license {
          HarmlessRefresh(old(client.tenants), old(client.secrets), client.secrets, done, parse, license);
        }
        return Some(i);
      }
      StepRelists(old(client.tenants), done, tenant, license);
      if '\n' !in license {
        forall t | t in done + [tenant] ensures Carries(client.secrets, client.tenants, t, parse, license) {
          StepCarries(secrets0, tenants0, client.secrets, client.tenants, tenant, t, parse, license);
        }
        StepConfigIds(done, tenant);
        if tenant.configuration.Some? {
          StepRefreshes(old(client.secrets), secrets0, ConfigId(tenant), client.secrets[ConfigId(tenant)],
                        parse, license, ConfigIds(done));
        }
      }
    }
    assert tenants[..|tenants|] == tenants;
    if '\n' !in license {
      HarmlessRefresh(old(client.tenants), old(client.secrets), client.secrets, tenants, parse, license);
    }
    return None;
  }

  // A refreshed file carries the license and keeps its other bindings; nothing else is left in
  // its secret.
  lemma RefreshKeepsFiles(before: map<SecretId, Secret>, after: map<SecretId, Secret>, parse: Parser, license: string,
                          configs: set<SecretId>, id: SecretId)
    requires ParserContract(parse) && '\n' !in license && Refreshed(before, after, parse, license, configs)
             && id in configs
    ensures FileCarries(after[id], parse, license) && after[id].data.Keys == {"config.env"}
    ensures Others(parse(after[id].data["config.env"])) == Others(parse(before[id].data["config.env"]))
  {
    RewritingKeepsOthers(before[id], after[id], parse, license);
  }

  // What a refresh does to the bindings of a tenant, listed or not.

  // Two states of a tenant read the same secrets and have the same environment but for the license.
  predicate SameSources(a: Tenant, b: Tenant) {
    CredsId(a) == CredsId(b) && FileId(a) == FileId(b) && Others(EnvMap(a.env)) == Others(EnvMap(b.env))
  }

  predicate CredsAmong(tenant: Tenant, configs: set<SecretId>) {
    CredsId(tenant).Some? && CredsId(tenant).value in configs
  }

  // Whatever the secrets hold, the other bindings survive the refresh of the configurations, when
  // the tenant was a and becomes b.
  ghost predicate Survives(a: Tenant, b: Tenant, parse: Parser, license: string, configs: set<SecretId>) {
    forall before, after :: Refreshed(before, after, parse, license, configs) ==>
      Others(Layered(b, after, parse)) == Others(Layered(a, before, parse))
  }

  lemma SameOption<T(!new)>(a: Option<T>, b: Option<T>)
    requires forall x :: a == Some(x) <==> b == Some(x)
    ensures a == b
  {
    assert a.Some? ==> b == Some(a.value);
  }

  lemma OthersOfUnion(a: Config, b: Config)
    ensures Others(a + b) == Others(a) + Others(b)
  {
  }

  lemma OthersOfLayers(tenant: Tenant, secrets: map<SecretId, Secret>, parse: Parser)
    ensures Others(Layered(tenant, secrets, parse))
            == Others(EnvMap(tenant.env)) + Others(CredsLayer(tenant, secrets))
               + Others(FileLayer(tenant, secrets, parse))
  {
    OthersOfUnion(EnvMap(tenant.env), CredsLayer(tenant, secrets));
    OthersOfUnion(EnvMap(tenant.env) + CredsLayer(tenant, secrets), FileLayer(tenant, secrets, parse));
  }

  lemma SameSourcesSurvive(a: Tenant, b: Tenant, before: map<SecretId, Secret>, after: map<SecretId, Secret>,
                           parse: Parser, license: string, configs: set<SecretId>)
    requires ParserContract(parse) && '\n' !in license && Refreshed(before, after, parse, license, configs)
    requires SameSources(a, b) && !CredsAmong(a, configs)
    ensures Others(Layered(b, after, parse)) == Others(Layered(a, before, parse))
  {
    OthersOfLayers(a, before, parse);
    OthersOfLayers(b, after, parse);
    assert CredsLayer(b, after) == CredsLayer(a, before);
    if FileId(a).Some? && FileId(a).value in configs {
      RefreshKeepsFiles(before, after, parse, license, configs, FileId(a).value);
    } else {
      assert FileLayer(b, after, parse) == FileLayer(a, before, parse);
    }
  }

  // The probe: secrets that tell apart where bindings come from. The probed secret has a binding of
  // its own and one more in its file; all other files are empty.

  const CREDS_KEY := "MINIO_REGION"
  const FILE_KEY := "MINIO_SITE_NAME"

  function FileBindings(id: SecretId, probe: Option<SecretId>, value: string): seq<(string, string)> {
    if probe == Some(id) then [(FILE_KEY, value)] else []
  }

  function ProbeSecret(id: SecretId, probe: Option<SecretId>, value: string): Secret {
    var file := map["config.env" := Printed(FileBindings(id, probe, value))];
    Secret(if probe == Some(id) then file[CREDS_KEY := value] else file, "", "", false)
  }

  function ProbeRewritten(id: SecretId, probe: Option<SecretId>, value: string, license: string): Secret {
    var order := FileBindings(id, probe, value) + [(MINIO_SUBNET_LICENSE, license)];
    Secret(map["config.env" := Printed(order)], "", "", false)
  }

  ghost function ProbeIds(configs: set<SecretId>, probe: Option<SecretId>): set<SecretId> {
    if probe.Some? then configs + {probe.value} else configs
  }

  ghost function ProbeBefore(configs: set<SecretId>, probe: Option<SecretId>, value: string): map<SecretId, Secret> {
    map id | id in ProbeIds(configs, probe) :: ProbeSecret(id, probe, value)
  }

  ghost function ProbeAfter(configs: set<SecretId>, probe: Option<SecretId>, value: string, license: string)
    : map<SecretId, Secret>
  {
    map id | id in ProbeIds(configs, probe) ::
      if id in configs then ProbeRewritten(id, probe, value, license) else ProbeSecret(id, probe, value)
  }

  lemma OneBinding(key: string, value: string)
    ensures Iterates([(key, value)], map[key := value]) && Bindings([(key, value)]) == map[key := value]
  {
    assert [(key, value)][..0] == [];
  }

  lemma OneMoreBinding(order: seq<(string, string)>, key: string, value: string)
    requires Iterates(order, Bindings(order)) && key !in Bindings(order)
    ensures Iterates(order + [(key, value)], Bindings(order)[key := value])
    ensures Bindings(order + [(key, value)]) == Bindings(order)[key := value]
  {
    PrintedExtends(order, key, value);
    IteratesExtends(order, Bindings(order), key, value);
  }

  // What is read from the file of a probe, before and after.

  lemma FileBindingsIterate(id: SecretId, probe: Option<SecretId>, value: string, license: string)
    ensures var order := FileBindings(id, probe, value);
      var longer := order + [(MINIO_SUBNET_LICENSE, license)];
      && Bindings(order) == (if probe == Some(id) then map[FILE_KEY := value] else map[])
      && Bindings(longer) == Bindings(order)[MINIO_SUBNET_LICENSE := license]
      && Iterates(order, Bindings(order)) && Iterates(longer, Bindings(longer))
  {
    OneBinding(FILE_KEY, value);
    OneMoreBinding(FileBindings(id, probe, value), MINIO_SUBNET_LICENSE, license);
  }

  lemma ReadsExactly(parse: Parser, order: seq<(string, string)>)
    requires ParserContract(parse) && Iterates(order, Bindings(order)) && Printable(Bindings(order))
    requires Bindings(order).Keys !! PARSER_KEYS
    ensures parse(Printed(order)) - PARSER_KEYS == Bindings(order)
  {
    ParserReadsBack(parse, order);
    assert Bindings(order) - PARSER_KEYS == Bindings(order);
  }

  lemma ProbeFiles(id: SecretId, probe: Option<SecretId>, value: string, parse: Parser, license: string)
    requires ParserContract(parse) && '\n' !in license && '\n' !in value
    ensures var order := FileBindings(id, probe, value);
      && parse(Printed(order)) - PARSER_KEYS == Bindings(order)
      && parse(Printed(order + [(MINIO_SUBNET_LICENSE, license)])) - PARSER_KEYS
         == Bindings(order)[MINIO_SUBNET_LICENSE := license]
      && Bindings(order) == if probe == Some(id) then map[FILE_KEY := value] else map[]
  {
    FileBindingsIterate(id, probe, value, license);
    ReadsExactly(parse, FileBindings(id, probe, value));
    ReadsExactly(parse, FileBindings(id, probe, value) + [(MINIO_SUBNET_LICENSE, license)]);
  }

  lemma ProbeIsRewritten(id: SecretId, probe: Option<SecretId>, value: string, parse: Parser, license: string)
    requires ParserContract(parse) && '\n' !in license && '\n' !in value
    ensures Rewritten(ProbeSecret(id, probe, value), ProbeRewritten(id, probe, value, license), parse, license)
  {
    var order := FileBindings(id, probe, value);
    FileBindingsIterate(id, probe, value, license);
    ReadsExactly(parse, order);
    LicensedIsBound(parse(Printed(order)), Bindings(order), license);
    assert Iterates(order + [(MINIO_SUBNET_LICENSE, license)], Licensed(parse(Printed(order)), license));
  }

  lemma LicensedIsBound(read: Config, bindings: Config, license: string)
    requires read - PARSER_KEYS == bindings
    ensures Licensed(read, license) == bindings[MINIO_SUBNET_LICENSE := license]
  {
    assert MINIO_SUBNET_LICENSE !in PARSER_KEYS;
    forall k | k in read && k !in PARSER_KEYS ensures k in bindings && bindings[k] == read[k] {
      assert k in read - PARSER_KEYS;
    }
  }

  lemma ProbeIsRefreshed(configs: set<SecretId>, probe: Option<SecretId>, value: string, parse: Parser, license: string)
    requires ParserContract(parse) && '\n' !in license && '\n' !in value
    ensures Refreshed(ProbeBefore(configs, probe, value), ProbeAfter(configs, probe, value, license), parse,
                      license, configs)
  {
    forall id | id in configs
      ensures Rewritten(ProbeSecret(id, probe, value), ProbeRewritten(id, probe, value, license), parse, license)
    {
      ProbeIsRewritten(id, probe, value, parse, license);
    }
  }

  // The value is longer than what the tenant's environment has under the keys looked at.
  predicate Outgrows(value: string, tenant: Tenant) {
    forall k | k in EnvMap(tenant.env) && k in {CREDS_KEY, FILE_KEY, "config.env"} :: |EnvMap(tenant.env)[k]| < |value|
  }

  ghost function Probed(configs: set<SecretId>, probe: Option<SecretId>, value: string, license: string, written: bool)
    : map<SecretId, Secret>
  {
    if written then ProbeAfter(configs, probe, value, license) else ProbeBefore(configs, probe, value)
  }

  // What a file of the probe gives to read, rewritten or not.
  predicate ReadsProbe(file: Config, probed: bool, value: string) {
    && (forall k | k in file :: k in PARSER_KEYS || k == MINIO_SUBNET_LICENSE || k == FILE_KEY)
    && (FILE_KEY in file <==> probed)
    && (FILE_KEY in file ==> file[FILE_KEY] == value)
  }

  lemma BindingsAreRead(file: Config, bindings: Config, probed: bool, value: string)
    requires file - PARSER_KEYS == bindings && ReadsProbe(bindings, probed, value)
    ensures ReadsProbe(file, probed, value)
  {
    assert forall k | k in file :: k in PARSER_KEYS || k in bindings;
    assert forall k | k in bindings :: k in file && file[k] == bindings[k];
  }

  lemma ProbeReads(id: SecretId, probe: Option<SecretId>, value: string, parse: Parser, license: string)
    requires ParserContract(parse) && '\n' !in license && '\n' !in value
    ensures ReadsProbe(parse(ProbeSecret(id, probe, value).data["config.env"]), probe == Some(id), value)
    ensures ReadsProbe(parse(ProbeRewritten(id, probe, value, license).data["config.env"]), probe == Some(id), value)
  {
    ProbeFiles(id, probe, value, parse, license);
    var order := FileBindings(id, probe, value);
    BindingsAreRead(parse(Printed(order)), Bindings(order), probe == Some(id), value);
    BindingsAreRead(parse(Printed(order + [(MINIO_SUBNET_LICENSE, license)])),
                    Bindings(order)[MINIO_SUBNET_LICENSE := license], probe == Some(id), value);
  }

  lemma ProbedFileLayer(tenant: Tenant, configs: set<SecretId>, probe: Option<SecretId>, value: string, parse: Parser,
                        license: string, written: bool)
    requires ParserContract(parse) && '\n' !in license && '\n' !in value
    ensures ReadsProbe(FileLayer(tenant, Probed(configs, probe, value, license, written), parse),
                       probe.Some? && FileId(tenant) == probe, value)
  {
    if FileId(tenant).Some? {
      ProbeReads(FileId(tenant).value, probe, value, parse, license);
    }
  }

  lemma {:induction false} PrintedIsLonger(order: seq<(string, string)>, i: nat)
    requires i < |order|
    ensures |Printed(order)| > |order[i].1|
  {
    if i == |order| - 1 {
    } else {
      PrintedIsLonger(order[..|order| - 1], i);
    }
  }

  lemma ProbedCredsLayer(tenant: Tenant, configs: set<SecretId>, probe: Option<SecretId>, value: string,
                         license: string, written: bool)
    ensures var creds := CredsLayer(tenant, Probed(configs, probe, value, license, written));
      && (CREDS_KEY in creds <==> probe.Some? && CredsId(tenant) == probe && !(written && probe.value in configs))
      && (CREDS_KEY in creds ==> creds[CREDS_KEY] == value)
      && FILE_KEY !in creds
      && (probe.Some? && CredsId(tenant) == probe ==> "config.env" in creds && |creds["config.env"]| > |value|)
  {
    if probe.Some? && CredsId(tenant) == probe {
      var order := FileBindings(probe.value, probe, value);
      PrintedIsLonger(order, 0);
      PrintedIsLonger(order + [(MINIO_SUBNET_LICENSE, license)], 0);
    }
  }

  lemma LookupLayers(env: Config, creds: Config, file: Config, key: string)
    requires key !in PARSER_KEYS && key != MINIO_SUBNET_LICENSE
    ensures key in Others(env + creds + file) <==> key in env || key in creds || key in file
    ensures key in Others(env + creds + file) ==>
              Others(env + creds + file)[key]
              == if key in file then file[key] else if key in creds then creds[key] else env[key]
  {
  }

  // What a tenant reads from the probe under the keys of interest.
  lemma ProbeLookup(tenant: Tenant, configs: set<SecretId>, probe: Option<SecretId>, value: string, parse: Parser,
                    license: string, written: bool)
    requires ParserContract(parse) && '\n' !in license && '\n' !in value && Outgrows(value, tenant)
    ensures var read := Others(Layered(tenant, Probed(configs, probe, value, license, written), parse));
      && (CREDS_KEY in read && read[CREDS_KEY] == value
          <==> probe.Some? && CredsId(tenant) == probe && !(written && probe.value in configs))
      && (FILE_KEY in read && read[FILE_KEY] == value <==> probe.Some? && FileId(tenant) == probe)
      && (probe.Some? && CredsId(tenant) == probe ==> "config.env" in read && |read["config.env"]| > |value|)
      && (CredsId(tenant).None? && "config.env" in read ==> |read["config.env"]| < |value|)
  {
    var secrets := Probed(configs, probe, value, license, written);
    var env, creds, file := EnvMap(tenant.env), CredsLayer(tenant, secrets), FileLayer(tenant, secrets, parse);
    ProbedFileLayer(tenant, configs, probe, value, parse, license, written);
    ProbedCredsLayer(tenant, configs, probe, value, license, written);
    LookupLayers(env, creds, file, CREDS_KEY);
    LookupLayers(env, creds, file, FILE_KEY);
    LookupLayers(env, creds, file, "config.env");
  }

  function Size(config: Config, key: string): nat { if key in config then |config[key]| else 0 }

  function LongSize(tenant: Tenant): nat {
    var env := EnvMap(tenant.env);
    Size(env, CREDS_KEY) + Size(env, FILE_KEY) + Size(env, "config.env")
  }

  // A value that stands in no environment.
  function LongValue(a: Tenant, b: Tenant): (value: string)
    ensures '\n' !in value && Outgrows(value, a) && Outgrows(value, b)
  {
    seq(LongSize(a) + LongSize(b) + 1, _ => 'x')
  }

  // If the bindings always survive, the two states agree on whether they read the probed secret.
  lemma ProbeSources(a: Tenant, b: Tenant, parse: Parser, license: string, configs: set<SecretId>, probe: SecretId)
    requires ParserContract(parse) && '\n' !in license && Survives(a, b, parse, license, configs)
    ensures CredsId(a) == Some(probe) <==> CredsId(b) == Some(probe) && probe !in configs
    ensures FileId(a) == Some(probe) <==> FileId(b) == Some(probe)
    ensures CredsId(b) == Some(probe) ==> CredsId(a).Some?
  {
    var value := LongValue(a, b);
    ProbeIsRefreshed(configs, Some(probe), value, parse, license);
    ProbeLookup(a, configs, Some(probe), value, parse, license, false);
    ProbeLookup(b, configs, Some(probe), value, parse, license, true);
  }

  lemma ProbeEnvironment(a: Tenant, b: Tenant, parse: Parser, license: string, configs: set<SecretId>)
    requires ParserContract(parse) && '\n' !in license && Survives(a, b, parse, license, configs)
    requires !CredsAmong(a, configs) && !CredsAmong(b, configs)
    ensures Others(EnvMap(a.env)) == Others(EnvMap(b.env))
  {
    ProbeIsRefreshed(configs, None, "", parse, license);
    EmptyLayers(a, configs, parse, license, false);
    EmptyLayers(b, configs, parse, license, true);
  }

  lemma EmptyLayers(tenant: Tenant, configs: set<SecretId>, parse: Parser, license: string, written: bool)
    requires ParserContract(parse) && '\n' !in license && !CredsAmong(tenant, configs)
    ensures Others(Layered(tenant, Probed(configs, None, "", license, written), parse)) == Others(EnvMap(tenant.env))
  {
    var secrets := Probed(configs, None, "", license, written);
    OthersOfLayers(tenant, secrets, parse);
    ProbedFileLayer(tenant, configs, None, "", parse, license, written);
    assert CredsLayer(tenant, secrets) == map[];
    assert Others(FileLayer(tenant, secrets, parse)) == map[];
  }

  // The other bindings survive for all contents of the secrets exactly if the tenant reads the same
  // sources as before and its credentials are not kept in a rewritten configuration.
  lemma SurvivesExactly(a: Tenant, b: Tenant, parse: Parser, license: string, configs: set<SecretId>)
    requires ParserContract(parse) && '\n' !in license
    ensures Survives(a, b, parse, license, configs) <==> SameSources(a, b) && !CredsAmong(a, configs)
  {
    if SameSources(a, b) && !CredsAmong(a, configs) {
      forall before, after | Refreshed(before, after, parse, license, configs)
        ensures Others(Layered(b, after, parse)) == Others(Layered(a, before, parse))
      {
        SameSourcesSurvive(a, b, before, after, parse, license, configs);
      }
    }
    if Survives(a, b, parse, license, configs) {
      forall probe ensures CredsId(a) == Some(probe) <==> CredsId(b) == Some(probe) && probe !in configs {
        ProbeSources(a, b, parse, license, configs, probe);
      }
      forall probe ensures FileId(a) == Some(probe) <==> FileId(b) == Some(probe) {
        ProbeSources(a, b, parse, license, configs, probe);
      }
      if CredsId(b).Some? {
        ProbeSources(a, b, parse, license, configs, CredsId(b).value);
        assert CredsId(a) == Some(CredsId(a).value);
      }
      SameOption(CredsId(a), CredsId(b));
      SameOption(FileId(a), FileId(b));
      ProbeEnvironment(a, b, parse, license, configs);
    }
  }

  // One write, of the license of one tenant, as another tenant or the same one sees it.
  lemma HarmlessExactlyWhenNotShared(writer: Tenant, reader: Tenant, parse: Parser, license: string)
    requires ParserContract(parse) && '\n' !in license && writer.configuration.Some?
    ensures Survives(reader, reader, parse, license, {ConfigId(writer)}) <==> CredsId(reader) != Some(ConfigId(writer))
  {
    SurvivesExactly(reader, reader, parse, license, {ConfigId(writer)});
  }

  lemma MapOfOne<T>(m: map<SecretId, T>, id: SecretId)
    requires m.Keys == {id}
    ensures m == map[id := m[id]]
  {
    assert id in m.Keys;
  }

  lemma ProbeOfOne(id: SecretId, value: string, license: string)
    ensures Probed({id}, Some(id), value, license, false) == map[id := ProbeSecret(id, Some(id), value)]
    ensures Probed({id}, Some(id), value, license, true) == map[id := ProbeRewritten(id, Some(id), value, license)]
  {
    assert ProbeIds({id}, Some(id)) == {id};
    MapOfOne(Probed({id}, Some(id), value, license, false), id);
    MapOfOne(Probed({id}, Some(id), value, license, true), id);
  }

  // A tenant whose credentials stand in a rewritten configuration loses them: the rewrite drops
  // every entry of the secret but the file.
  lemma SharedSecretLosesBindings(writer: Tenant, reader: Tenant, parse: Parser, license: string)
    returns (secrets: map<SecretId, Secret>, updated: Secret, key: string)
    requires ParserContract(parse) && '\n' !in license && writer.configuration.Some?
    requires CredsId(reader) == Some(ConfigId(writer))
    ensures ConfigId(writer) in secrets && Rewritten(secrets[ConfigId(writer)], updated, parse, license)
    ensures var read, read' := Others(Layered(reader, secrets, parse)),
                               Others(Layered(reader, secrets[ConfigId(writer) := updated], parse));
      key in read && !(key in read' && read'[key] == read[key])
  {
    var id, value := ConfigId(writer), LongValue(reader, reader);
    key := CREDS_KEY;
    secrets, updated := map[id := ProbeSecret(id, Some(id), value)], ProbeRewritten(id, Some(id), value, license);
    ProbeIsRewritten(id, Some(id), value, parse, license);
    ProbeOfOne(id, value, license);
    ProbeLookup(reader, {id}, Some(id), value, parse, license, false);
    ProbeLookup(reader, {id}, Some(id), value, parse, license, true);
  }

  // A listing does no harm to a tenant that does not keep its credentials in a listed configuration
  // and whose last listing, if it has no configuration, has the sources the cluster has.
  predicate HarmlessTo(tenant: Tenant, id: TenantId, listed: seq<Tenant>, configs: set<SecretId>) {
    && !CredsAmong(tenant, configs)
    && (LastListed(listed, id).Some? ==> SameSources(tenant, LastListed(listed, id).value))
  }

  ghost predicate Harmless(tenants: map<TenantId, Tenant>, listed: seq<Tenant>) {
    forall id | id in tenants :: HarmlessTo(tenants[id], id, listed, ConfigIds(listed))
  }

  lemma RelabelledSources(tenant: Tenant, license: string)
    ensures SameSources(tenant, Relabelled(tenant, license))
  {
    RelicensedMap(tenant.env, license);
  }

  // A refresh keeps the other bindings of a tenant, for all contents of the secrets, exactly if it
  // does it no harm.
  lemma RefreshHarmsExactly(tenants: map<TenantId, Tenant>, listed: seq<Tenant>, id: TenantId, parse: Parser,
                            license: string)
    requires ParserContract(parse) && '\n' !in license && id in tenants
    ensures Survives(tenants[id], Relisted(tenants, listed, license)[id], parse, license, ConfigIds(listed))
            <==> HarmlessTo(tenants[id], id, listed, ConfigIds(listed))
  {
    SurvivesExactly(tenants[id], Relisted(tenants, listed, license)[id], parse, license, ConfigIds(listed));
    if LastListed(listed, id).Some? {
      RelabelledSources(LastListed(listed, id).value, license);
    }
  }

  // A listing that is up to date harms only the tenants that keep credentials in a configuration.
  lemma FreshListingHarmless(tenants: map<TenantId, Tenant>, listed: seq<Tenant>)
    requires forall t | t in listed && t.configuration.None? && t.id in tenants :: tenants[t.id] == t
    ensures Harmless(tenants, listed) <==> forall id | id in tenants :: !CredsAmong(tenants[id], ConfigIds(listed))
  {
    forall id | id in tenants && LastListed(listed, id).Some? ensures LastListed(listed, id).value == tenants[id] {
      LastListedIsListed(listed, id);
    }
  }

  lemma {:induction false} LastListedIsListed(listed: seq<Tenant>, id: TenantId)
    requires LastListed(listed, id).Some?
    ensures var t := LastListed(listed, id).value; t in listed && t.id == id && t.configuration.None?
  {
    if listed[|listed| - 1].id == id && listed[|listed| - 1].configuration.None? {
    } else {
      LastListedIsListed(listed[..|listed| - 1], id);
    }
  }

  ghost predicate OthersKept(tenants: map<TenantId, Tenant>, secrets: map<SecretId, Secret>,
                             tenants': map<TenantId, Tenant>, secrets': map<SecretId, Secret>, parse: Parser) {
    && tenants.Keys == tenants'.Keys
    && forall id | id in tenants ::
         Others(Layered(tenants'[id], secrets', parse)) == Others(Layered(tenants[id], secrets, parse))
  }

  lemma HarmlessRefresh(tenants: map<TenantId, Tenant>, secrets: map<SecretId, Secret>, secrets': map<SecretId, Secret>,
                        listed: seq<Tenant>, parse: Parser, license: string)
    requires ParserContract(parse) && '\n' !in license
    requires Refreshed(secrets, secrets', parse, license, ConfigIds(listed))
    ensures Harmless(tenants, listed) ==>
              OthersKept(tenants, secrets, Relisted(tenants, listed, license), secrets', parse)
  {
    if Harmless(tenants, listed) {
      forall id | id in tenants
        ensures Survives(tenants[id], Relisted(tenants, listed, license)[id], parse, license, ConfigIds(listed))
      {
        RefreshHarmsExactly(tenants, listed, id, parse, license);
      }
    }
  }

  // Write, then read back.

  predicate SharesSecret(tenant: Tenant) { tenant.credsSecret.Some? && tenant.credsSecret == tenant.configuration }

  // After the license was written, the tenant's configuration has it and agrees with the earlier
  // one on every other key except the two of the parser.
  lemma ReadBack(tenant: Tenant, secrets: map<SecretId, Secret>, updated: Secret, parse: Parser, license: string)
    requires ParserContract(parse) && '\n' !in license
    requires tenant.configuration.Some? && ConfigId(tenant) in secrets && !SharesSecret(tenant)
    requires Rewritten(secrets[ConfigId(tenant)], updated, parse, license)
    ensures var before := Layered(tenant, secrets, parse);
      var after := Layered(tenant, secrets[ConfigId(tenant) := updated], parse);
      && MINIO_SUBNET_LICENSE in after && after[MINIO_SUBNET_LICENSE] == license
      && Others(after) == Others(before)
  {
    var id := ConfigId(tenant);
    RewritingKeepsOthers(secrets[id], updated, parse, license);
    assert Refreshed(secrets, secrets[id := updated], parse, license, {id});
    SameSourcesSurvive(tenant, tenant, secrets, secrets[id := updated], parse, license, {id});
  }

  // The calls themselves: read, write, read. When none of them fails and the tenant keeps its
  // credentials elsewhere, the second reading has the license and is otherwise the first.
  method WriteThenRead(client: Client, parse: Parser, license: string, tenant: Tenant)
    returns (first: Result<Config, ConfigError>, failure: Option<LicenseError>, second: Result<Config, ConfigError>)
    requires ParserContract(parse)
    modifies client`secrets, client`tenants, client`faulty
    ensures first.Ok? && failure.None? && !client.faulty && tenant.configuration.Some? && '\n' !in license
            && !SharesSecret(tenant) ==>
              && second.Ok?
              && MINIO_SUBNET_LICENSE in second.value && second.value[MINIO_SUBNET_LICENSE] == license
              && Others(second.value) == Others(first.value)
  {
    first := GetTenantConfiguration(client, parse, Some(tenant));
    ghost var before := client.secrets;
    failure := AddSubscriptionLicenseToTenant(client, parse, license, tenant);
    ghost var after := client.secrets;
    second := GetTenantConfiguration(client, parse, Some(tenant));
    if failure.None? && tenant.configuration.Some? && '\n' !in license && !SharesSecret(tenant) {
      assert after == before[ConfigId(tenant) := after[ConfigId(tenant)]];
      ReadBack(tenant, before, after[ConfigId(tenant)], parse, license);
    }
  }

  // The license secret of the operator itself.

  function LicenseId(ns: string): SecretId { SecretId(ns, LICENSE_SECRET_NAME) }

  method SaveSubscriptionLicense(client: Client, ns: string, license: string) returns (ok: bool)
    modifies client`secrets, client`events, client`faulty
    ensures old(client.faulty) ==> client.faulty
    ensures !ok ==> client.secrets == old(client.secrets)
    ensures ok ==> SecretId(ns, "subnet-license") in client.secrets
                   && client.secrets[SecretId(ns, "subnet-license")]
                   == if LicenseId(ns) in old(client.secrets)
                      then old(client.secrets)[LicenseId(ns)].(data := map["CONSOLE_SUBNET_LICENSE" := license])
                      else Secret(map["CONSOLE_SUBNET_LICENSE" := license], "", "", false)
    ensures !ok ==> client.faulty || (LicenseId(ns) in client.secrets && client.secrets[LicenseId(ns)].immutable)
    ensures ok ==> LicenseId(ns) in client.secrets
                   && client.secrets[LicenseId(ns)].data == map[CONSOLE_SUBNET_LICENSE := license]
                   && client.secrets - {LicenseId(ns)} == old(client.secrets) - {LicenseId(ns)}
  {
    var id := LicenseId(ns);
    var found := client.GetSecret(id);
    if found.Err? {
      if found.error == NotFound {
        ok := client.CreateSecret(id, Secret(map[CONSOLE_SUBNET_LICENSE := license], "", "", false));
        return;
      }
      return false;
    }
    ok := client.UpdateSecret(id, found.value.(data := map[CONSOLE_SUBNET_LICENSE := license]));
  }

  // What a save stored is what a later successful read returns.
  method GetSubscriptionLicense(client: Client, ns: string) returns (r: Option<string>)
    modifies client`faulty
    ensures r.None? ==> client.faulty || LicenseId(ns) !in client.secrets
                        || CONSOLE_SUBNET_LICENSE !in client.secrets[LicenseId(ns)].data
    ensures LicenseId(ns) == SecretId(ns, "subnet-license")
    ensures r.Some? ==> LicenseId(ns) in client.secrets
                        && CONSOLE_SUBNET_LICENSE in client.secrets[LicenseId(ns)].data
                        && r.value == client.secrets[LicenseId(ns)].data[CONSOLE_SUBNET_LICENSE]
  {
    var licenseSecret := client.GetSecret(LicenseId(ns));
    if licenseSecret.Err? || CONSOLE_SUBNET_LICENSE !in licenseSecret.value.data {
      return None;
    }
    return Some(licenseSecret.value.data[CONSOLE_SUBNET_LICENSE]);
  }
}
