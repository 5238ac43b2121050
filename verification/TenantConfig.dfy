// operatorapi/utils.go: the tenant's config.env file, and the three layers of its configuration.
module TenantConfig {
  import opened Cluster
  import opened Text
  import opened Wrappers

  type Config = map<string, string>

  // The printer.

  function Line(key: string, value: string): string { "export " + key + "=\"" + value + "\"" }

  // The file printed for bindings in a given order.
  function Printed(order: seq<(string, string)>): string {
    if order == [] then "" else
      var (key, value) := order[|order| - 1];
      Printed(order[..|order| - 1]) + (Line(key, value) + "\n")
  }

  function Bindings(order: seq<(string, string)>): Config {
    if order == [] then map[] else
      var (key, value) := order[|order| - 1];
      Bindings(order[..|order| - 1])[key := value]
  }

  // One way a loop may range over the map: every binding once.
  ghost predicate Iterates(order: seq<(string, string)>, m: Config) {
    && Bindings(order) == m
    && forall i, j | 0 <= i < j < |order| :: order[i].0 != order[j].0
  }

  lemma {:induction false} BindingsOfKeys(order: seq<(string, string)>)
    ensures forall i | 0 <= i < |order| :: order[i].0 in Bindings(order)
  {
    if order == [] {
    } else {
      BindingsOfKeys(order[..|order| - 1]);
    }
  }

  // The map holds the last binding of each key, and nothing else.

  lemma {:induction false} LastBindingHolds(order: seq<(string, string)>, i: nat)
    requires i < |order| && forall j | i < j < |order| :: order[j].0 != order[i].0
    ensures order[i].0 in Bindings(order) && Bindings(order)[order[i].0] == order[i].1
  {
    if i == |order| - 1 {
    } else {
      LastBindingHolds(order[..|order| - 1], i);
    }
  }

  lemma {:induction false} BindingStands(order: seq<(string, string)>, key: string) returns (i: nat)
    requires key in Bindings(order)
    ensures i < |order| && order[i] == (key, Bindings(order)[key])
  {
    if order[|order| - 1].0 == key {
      i := |order| - 1;
    } else {
      i := BindingStands(order[..|order| - 1], key);
    }
  }

  // One more turn of the printing loop.

  lemma PrintedExtends(order: seq<(string, string)>, key: string, value: string)
    ensures Printed(order + [(key, value)]) == Printed(order) + (Line(key, value) + "\n")
    ensures Bindings(order + [(key, value)]) == Bindings(order)[key := value]
  {
    assert (order + [(key, value)])[..|order|] == order;
  }

  lemma IteratesExtends(order: seq<(string, string)>, m: Config, key: string, value: string)
    requires key !in m && Iterates(order, m)
    ensures Iterates(order + [(key, value)], m[key := value])
  {
    PrintedExtends(order, key, value);
    BindingsOfKeys(order);
  }

  method GenerateTenantConfigurationFile(configuration: Config)
    returns (rawConfiguration: string, ghost order: seq<(string, string)>)
    ensures Iterates(order, configuration) && rawConfiguration == Printed(order)
    ensures Decode(rawConfiguration) == configuration <==> Printable(configuration)
  {
    rawConfiguration, order := "", [];
    var remaining := configuration.Keys;
    while remaining != {}
      invariant remaining <= configuration.Keys
      invariant Iterates(order, configuration - remaining)
      invariant rawConfiguration == Printed(order)
    {
      var key :| key in remaining;
      PrintedExtends(order, key, configuration[key]);
      IteratesExtends(order, configuration - remaining, key, configuration[key]);
      assert configuration - (remaining - {key}) == (configuration - remaining)[key := configuration[key]];
      rawConfiguration := rawConfiguration + ("export " + key + "=\"" + configuration[key] + "\"" + "\n");
      order := order + [(key, configuration[key])];
      remaining := remaining - {key};
    }
    assert configuration - {} == configuration;
    PrinterHasLeftInverse(configuration, order);
  }

  // A reader for the file, independent of the printer: one binding a line, the last one wins.

  function ParseLine(line: string): Option<(string, string)> {
    if !("export " <= line) then None else
      match Cut(line[7..], '=')
      case None => None
      case Some((key, rest)) =>
        if |rest| >= 2 && rest[0] == '"' && rest[|rest| - 1] == '"' then Some((key, rest[1..|rest| - 1])) else None
  }

  function ParseLines(lines: seq<string>): Config {
    if lines == [] then map[] else
      var before := ParseLines(lines[..|lines| - 1]);
      match ParseLine(lines[|lines| - 1])
      case None => before
      case Some((key, value)) => before[key := value]
  }

  function Decode(text: string): Config { ParseLines(Split(text, '\n')) }

  predicate PrintableBinding(key: string, value: string) { '=' !in key && '\n' !in key && '\n' !in value }

  ghost predicate Printable(m: Config) { forall k | k in m :: PrintableBinding(k, m[k]) }

  lemma LineIsOneLine(key: string, value: string)
    requires PrintableBinding(key, value)
    ensures '\n' !in Line(key, value)
  {
    assert forall c | c in "export " || c in "=\"" || c in "\"" :: c != '\n';
  }

  lemma LineRoundTrip(key: string, value: string)
    requires PrintableBinding(key, value)
    ensures ParseLine(Line(key, value)) == Some((key, value))
  {
    var quoted := "\"" + value + "\"";
    var tail := key + ['='] + quoted;
    assert Line(key, value) == "export " + tail;
    assert ("export " + tail)[7..] == tail;
    CutAtFirst(key, '=', quoted);
    assert quoted[1..|quoted| - 1] == value;
  }

  function Lines(order: seq<(string, string)>): seq<string> {
    seq(|order|, i requires 0 <= i < |order| => Line(order[i].0, order[i].1))
  }

  lemma JoinOneMoreLine(lines: seq<string>, line: string)
    ensures Join(lines + [line] + [""], '\n') == Join(lines + [""], '\n') + (line + "\n")
  {
    JoinSnoc(lines + [line], "", '\n');
    if lines == [] {
      assert lines + [line] == [line] && lines + [""] == [""];
    } else {
      JoinSnoc(lines, "", '\n');
      JoinSnoc(lines, line, '\n');
    }
  }

  lemma {:induction false} PrintedIsJoin(order: seq<(string, string)>)
    ensures Printed(order) == Join(Lines(order) + [""], '\n')
  {
    if order == [] {
    } else {
      var init, last := order[..|order| - 1], order[|order| - 1];
      PrintedIsJoin(init);
      assert Lines(order) == Lines(init) + [Line(last.0, last.1)];
      JoinOneMoreLine(Lines(init), Line(last.0, last.1));
    }
  }

  lemma {:induction false} ParseOfLines(order: seq<(string, string)>)
    requires forall i | 0 <= i < |order| :: PrintableBinding(order[i].0, order[i].1)
    ensures ParseLines(Lines(order)) == Bindings(order)
    ensures forall l | l in Lines(order) :: '\n' !in l
  {
    if order == [] {
    } else {
      var init, last := order[..|order| - 1], order[|order| - 1];
      ParseOfLines(init);
      assert Lines(order)[..|order| - 1] == Lines(init);
      LineRoundTrip(last.0, last.1);
      LineIsOneLine(last.0, last.1);
    }
  }

  lemma DecodePrinted(order: seq<(string, string)>)
    requires forall i | 0 <= i < |order| :: PrintableBinding(order[i].0, order[i].1)
    ensures Decode(Printed(order)) == Bindings(order)
  {
    PrintedIsJoin(order);
    ParseOfLines(order);
    SplitInvertsJoin(Lines(order) + [""], '\n');
    assert (Lines(order) + [""])[..|order|] == Lines(order);
  }

  lemma {:induction false} ParsedLinesArePrintable(lines: seq<string>)
    requires forall l | l in lines :: '\n' !in l
    ensures Printable(ParseLines(lines))
  {
    if lines == [] {
    } else {
      var line := lines[|lines| - 1];
      ParsedLinesArePrintable(lines[..|lines| - 1]);
      assert line in lines;
      match ParseLine(line)
      case None =>
      case Some((key, value)) =>
        var rest := Cut(line[7..], '=').value.1;
        assert line[7..] == key + ['='] + rest;
        assert forall c | c in key || c in rest :: c in line[7..];
        assert forall c | c in value :: c in rest;
        assert forall c | c in line[7..] :: c in line;
    }
  }

  // In whatever order the map is printed, reading gives it back exactly if it is printable.
  lemma PrinterHasLeftInverse(m: Config, order: seq<(string, string)>)
    requires Iterates(order, m)
    ensures Decode(Printed(order)) == m <==> Printable(m)
  {
    if Printable(m) {
      forall i | 0 <= i < |order| ensures PrintableBinding(order[i].0, order[i].1) {
        LastBindingHolds(order, i);
      }
      DecodePrinted(order);
    }
    ParsedLinesArePrintable(Split(Printed(order), '\n'));
  }

  // Different printable configurations never print alike.
  lemma PrintableConfigsPrintApart(m1: Config, order1: seq<(string, string)>, m2: Config, order2: seq<(string, string)>)
    requires Iterates(order1, m1) && Iterates(order2, m2) && Printable(m1) && Printable(m2)
    requires Printed(order1) == Printed(order2)
    ensures m1 == m2
  {
    PrinterHasLeftInverse(m1, order1);
    PrinterHasLeftInverse(m2, order2);
  }

  // One line of the file, as text.
  lemma LineText(key: string, value: string)
    ensures Printed([(key, value)]) == "export " + key + "=\"" + value + "\"" + "\n"
  {
    assert [(key, value)][..0] == [];
  }

  // A newline in a value makes two different configurations print alike.
  lemma NewlinesCollide()
    ensures Printed([("a", "1\"\nexport b=\"2")]) == Printed([("a", "1"), ("b", "2")])
  {
    assert Line("a", "1\"\nexport b=\"2") == Line("a", "1") + "\n" + Line("b", "2");
    assert [("a", "1"), ("b", "2")][..1] == [("a", "1")];
  }

  // The parser of the operator library. It reads back what the printer wrote, except for two keys
  // it derives by itself, and every binding it finds stood on one line, before and after '='.

  type Parser = string -> Config

  const PARSER_KEYS: set<string> := {"accesskey", "secretkey"}

  ghost predicate ParserContract(parse: Parser) {
    && (forall order :: ReadsBack(parse, order))
    && (forall text :: FindsLines(parse, text))
  }

  ghost predicate ReadsBack(parse: Parser, order: seq<(string, string)>) {
    Iterates(order, Bindings(order)) && Printable(Bindings(order)) ==>
      parse(Printed(order)) - PARSER_KEYS == Bindings(order) - PARSER_KEYS
  }

  ghost predicate FindsLines(parse: Parser, text: string) { Printable(parse(text)) }

  // The contract can be met: the reader above meets it.
  lemma DecodeMeetsContract()
    ensures ParserContract(Decode)
  {
    forall order ensures ReadsBack(Decode, order) {
      if Iterates(order, Bindings(order)) {
        PrinterHasLeftInverse(Bindings(order), order);
      }
    }
    forall text: string ensures FindsLines(Decode, text) {
      ParsedLinesArePrintable(Split(text, '\n'));
    }
  }

  // The three layers.

  function EnvMap(env: seq<EnvVar>): Config {
    if env == [] then map[] else EnvMap(env[..|env| - 1])[env[|env| - 1].name := env[|env| - 1].value]
  }

  function ConfigText(secret: Secret): string {
    if "config.env" in secret.data then secret.data["config.env"] else ""
  }

  // The secrets a tenant's credentials and configuration file are read from.

  function CredsId(tenant: Tenant): Option<SecretId> {
    if tenant.credsSecret.None? then None else Some(SecretId(tenant.id.ns, tenant.credsSecret.value))
  }

  function FileId(tenant: Tenant): Option<SecretId> {
    if tenant.configuration.None? then None else Some(SecretId(tenant.id.ns, tenant.configuration.value))
  }

  function CredsLayer(tenant: Tenant, secrets: map<SecretId, Secret>): Config {
    var id := CredsId(tenant);
    if id.Some? && id.value in secrets then secrets[id.value].data else map[]
  }

  function FileLayer(tenant: Tenant, secrets: map<SecretId, Secret>, parse: Parser): Config {
    var id := FileId(tenant);
    if id.Some? && id.value in secrets then parse(ConfigText(secrets[id.value])) else map[]
  }

  // The file overrides the credentials, which override the environment.
  function Layered(tenant: Tenant, secrets: map<SecretId, Secret>, parse: Parser): Config {
    EnvMap(tenant.env) + CredsLayer(tenant, secrets) + FileLayer(tenant, secrets, parse)
  }

  // The environment means the last variable of each name.

  predicate LastOfName(env: seq<EnvVar>, key: string, i: int) {
    0 <= i < |env| && env[i].name == key && forall j | i < j < |env| :: env[j].name != key
  }

  lemma {:induction false} EnvHoldsLast(env: seq<EnvVar>, key: string)
    ensures key in EnvMap(env) <==> exists i :: LastOfName(env, key, i)
    ensures forall i | LastOfName(env, key, i) :: key in EnvMap(env) && EnvMap(env)[key] == env[i].value
  {
    if env == [] {
    } else {
      var init, n := env[..|env| - 1], |env| - 1;
      EnvHoldsLast(init, key);
      if env[n].name == key {
        assert LastOfName(env, key, n);
      } else {
        forall i ensures LastOfName(env, key, i) <==> LastOfName(init, key, i) {
          assert LastOfName(init, key, i) ==> forall j | i < j < n :: env[j] == init[j];
          assert LastOfName(env, key, i) ==> i < n;
        }
      }
    }
  }

  // What the configuration file of a tenant binds, if it can be read, and its credentials secret.

  function FromFile(tenant: Tenant, secrets: map<SecretId, Secret>, parse: Parser, key: string): Option<string> {
    if tenant.configuration.None? || SecretId(tenant.id.ns, tenant.configuration.value) !in secrets then None else
      var data := secrets[SecretId(tenant.id.ns, tenant.configuration.value)].data;
      var file := parse(if "config.env" in data then data["config.env"] else "");
      if key in file then Some(file[key]) else None
  }

  function FromCreds(tenant: Tenant, secrets: map<SecretId, Secret>, key: string): Option<string> {
    if tenant.credsSecret.None? || SecretId(tenant.id.ns, tenant.credsSecret.value) !in secrets then None else
      var data := secrets[SecretId(tenant.id.ns, tenant.credsSecret.value)].data;
      if key in data then Some(data[key]) else None
  }

  // A key has the value of the file, else of the credentials, else of its last variable.
  ghost predicate LooksUpKey(config: Config, tenant: Tenant, secrets: map<SecretId, Secret>, parse: Parser,
                             key: string) {
    var file, creds := FromFile(tenant, secrets, parse, key), FromCreds(tenant, secrets, key);
    if file.Some? then key in config && config[key] == file.value
    else if creds.Some? then key in config && config[key] == creds.value
    else
      && (key in config <==> exists i :: LastOfName(tenant.env, key, i))
      && forall i | LastOfName(tenant.env, key, i) :: key in config && config[key] == tenant.env[i].value
  }

  ghost predicate LooksUp(config: Config, tenant: Tenant, secrets: map<SecretId, Secret>, parse: Parser) {
    forall key :: LooksUpKey(config, tenant, secrets, parse, key)
  }

  lemma LayersLookUp(tenant: Tenant, secrets: map<SecretId, Secret>, parse: Parser)
    ensures LooksUp(Layered(tenant, secrets, parse), tenant, secrets, parse)
  {
    forall key ensures LooksUpKey(Layered(tenant, secrets, parse), tenant, secrets, parse, key) {
      EnvHoldsLast(tenant.env, key);
    }
  }

  lemma LowerLayersLookUp(tenant: Tenant, secrets: map<SecretId, Secret>, parse: Parser)
    ensures LooksUp(EnvMap(tenant.env) + CredsLayer(tenant, secrets), tenant.(configuration := None), secrets, parse)
  {
    var fileless := tenant.(configuration := None);
    forall key ensures LooksUpKey(EnvMap(tenant.env) + CredsLayer(tenant, secrets), fileless, secrets, parse, key) {
      EnvHoldsLast(tenant.env, key);
    }
  }

  predicate CredsPresent(tenant: Tenant, secrets: map<SecretId, Secret>) {
    CredsId(tenant).Some? ==> CredsId(tenant).value in secrets
  }

  datatype ConfigError = NoTenant | CredsUnavailable

  method Merge(target: Config, source: Config) returns (r: Config)
    ensures r == target + source
  {
    r := target;
    var remaining := source.Keys;
    while remaining != {}
      invariant remaining <= source.Keys
      invariant r == target + (source - remaining)
    {
      var key :| key in remaining;
      r := r[key := source[key]];
      remaining := remaining - {key};
    }
    assert source - {} == source;
  }

  method ReadEnv(env: seq<EnvVar>) returns (tenantConfiguration: Config)
    ensures tenantConfiguration == EnvMap(env)
  {
    tenantConfiguration := map[];
    for i := 0 to |env|
      invariant tenantConfiguration == EnvMap(env[..i])
    {
      assert env[..i + 1][..i] == env[..i];
      tenantConfiguration := tenantConfiguration[env[i].name := env[i].value];
    }
    assert env[..|env|] == env;
  }

  // A configuration file that cannot be read is ignored; missing credentials are an error.
  method GetTenantConfiguration(client: Client, parse: Parser, tenant: Option<Tenant>)
    returns (r: Result<Config, ConfigError>)
    modifies client`faulty
    ensures old(client.faulty) ==> client.faulty
    ensures r == Err(NoTenant) <==> tenant.None?
    ensures tenant.Some? && r.Err? ==> client.faulty || !CredsPresent(tenant.value, client.secrets)
    ensures r.Ok? ==> CredsPresent(tenant.value, client.secrets)
    ensures r.Ok? ==> r.value == Layered(tenant.value, client.secrets, parse)
                      || (client.faulty
                          && r.value == EnvMap(tenant.value.env) + CredsLayer(tenant.value, client.secrets))
    ensures r.Ok? ==> LooksUp(r.value, tenant.value, client.secrets, parse)
                      || (client.faulty
                          && LooksUp(r.value, tenant.value.(configuration := None), client.secrets, parse))
  {
    if tenant.None? {
      return Err(NoTenant);
    }
    var tenantConfiguration := ReadEnv(tenant.value.env);
    if tenant.value.credsSecret.Some? {
      var minioSecret := client.GetSecret(SecretId(tenant.value.id.ns, tenant.value.credsSecret.value));
      if minioSecret.Err? {
        return Err(CredsUnavailable);
      }
      tenantConfiguration := Merge(tenantConfiguration, minioSecret.value.data);
    }
    if tenant.value.configuration.Some? {
      var minioConfigurationSecret := client.GetSecret(SecretId(tenant.value.id.ns, tenant.value.configuration.value));
      if minioConfigurationSecret.Ok? {
        tenantConfiguration := Merge(tenantConfiguration, parse(ConfigText(minioConfigurationSecret.value)));
      }
    }
    LayersLookUp(tenant.value, client.secrets, parse);
    LowerLayersLookUp(tenant.value, client.secrets, parse);
    return Ok(tenantConfiguration);
  }
}
