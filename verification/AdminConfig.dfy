// restapi/admin_config.go: the one-line configuration string sent to the MinIO admin API.
module AdminConfig {
  import opened Wrappers
  import opened Text

  datatype KeyValue = KeyValue(key: string, value: string)

  function Element(kv: KeyValue): string { kv.key + "=" + kv.value }

  function Elements(kvs: seq<KeyValue>): seq<string> {
    seq(|kvs|, i requires 0 <= i < |kvs| => Element(kvs[i]))
  }

  // The text buildConfig prints for a name and its settings.
  function Rendered(configName: string, kvs: seq<KeyValue>): string {
    Join([configName] + Elements(kvs), ' ')
  }

  // A notification target is addressed as name:account.
  function Target(configName: string, arnAccountID: string): string {
    if arnAccountID != "" then configName + ":" + arnAccountID else configName
  }

  method BuildConfig(configName: string, kvs: seq<KeyValue>) returns (config: string)
    ensures config == Rendered(configName, kvs)
  {
    var configElements := [configName];
    for i := 0 to |kvs|
      invariant configElements == [configName] + Elements(kvs)[..i]
    {
      configElements := configElements + [kvs[i].key + "=" + kvs[i].value];
    }
    assert Elements(kvs)[..|kvs|] == Elements(kvs);
    config := Join(configElements, ' ');
  }

  // The admin endpoint: it records what it was sent and answers arbitrarily.
  class MinioAdmin {
    var sent: seq<string>
    var answers: seq<Result<bool, string>>

    constructor ()
      ensures sent == [] && answers == []
    {
      sent, answers := [], [];
    }

    method SetConfigKV(config: string) returns (r: Result<bool, string>)
      modifies this
      ensures sent == old(sent) + [config] && answers == old(answers) + [r]
    {
      sent := sent + [config];
      r := *;
      answers := answers + [r];
    }
  }

  // The endpoint's last answer.
  function Answer(client: MinioAdmin): Result<bool, string>
    reads client
  {
    if client.answers == [] then Ok(false) else client.answers[|client.answers| - 1]
  }

  method SetConfig(client: MinioAdmin, configName: string, kvs: seq<KeyValue>) returns (restart: bool, failed: bool)
    modifies client
    ensures client.sent == old(client.sent) + [Rendered(configName, kvs)]
    ensures client.answers == old(client.answers) + [Answer(client)]
    ensures failed == Answer(client).Err? && restart == (Answer(client) == Ok(true))
  {
    var config := BuildConfig(configName, kvs);
    var r := client.SetConfigKV(config);
    if r.Err? {
      return false, true;
    }
    return r.value, false;
  }

  method SetConfigWithARNAccountID(client: MinioAdmin, configName: string, kvs: seq<KeyValue>, arnAccountID: string)
    returns (restart: bool, failed: bool)
    modifies client
    ensures client.sent == old(client.sent) + [Rendered(Target(configName, arnAccountID), kvs)]
    ensures client.answers == old(client.answers) + [Answer(client)]
    ensures failed == Answer(client).Err? && restart == (Answer(client) == Ok(true))
  {
    var name := configName;
    if arnAccountID != "" {
      name := configName + ":" + arnAccountID;
    }
    restart, failed := SetConfig(client, name, kvs);
  }

  // The line as text: the name, an account after a colon, and each setting after a space.
  lemma RenderedText(configName: string, arnAccountID: string, kvs: seq<KeyValue>, kv: KeyValue)
    requires arnAccountID != ""
    ensures Rendered(configName, []) == configName
    ensures Target(configName, arnAccountID) == configName + ":" + arnAccountID
    ensures Rendered(configName, kvs + [kv]) == Rendered(configName, kvs) + " " + (kv.key + "=" + kv.value)
  {
    assert Elements(kvs + [kv]) == Elements(kvs) + [kv.key + "=" + kv.value];
    assert [configName] + Elements(kvs + [kv]) == [configName] + Elements(kvs) + [kv.key + "=" + kv.value];
    JoinSnoc([configName] + Elements(kvs), kv.key + "=" + kv.value, ' ');
  }

  // A reader for the printed line, independent of the printer.

  function ParseElement(element: string): Option<KeyValue> {
    match Cut(element, '=')
    case None => None
    case Some((key, value)) => Some(KeyValue(key, value))
  }

  function ParseElements(elements: seq<string>): (r: Option<seq<KeyValue>>)
    ensures r.Some? ==> |r.value| == |elements|
    ensures r.Some? ==> forall i | 0 <= i < |elements| :: ParseElement(elements[i]) == Some(r.value[i])
  {
    if elements == [] then Some([]) else
      match (ParseElement(elements[0]), ParseElements(elements[1..]))
      case (Some(kv), Some(rest)) => Some([kv] + rest)
      case _ => None
  }

  function ParseTarget(target: string): (string, string) {
    match Cut(target, ':')
    case None => (target, "")
    case Some(pair) => pair
  }

  // Name, account and settings of a printed line.
  function ParseConfig(config: string): Option<(string, string, seq<KeyValue>)> {
    var parts := Split(config, ' ');
    match ParseElements(parts[1..])
    case None => None
    case Some(kvs) => Some((ParseTarget(parts[0]).0, ParseTarget(parts[0]).1, kvs))
  }

  // No text contains a separator that ends it early.
  predicate Clean(configName: string, arnAccountID: string, kvs: seq<KeyValue>) {
    && ' ' !in configName && ':' !in configName && ' ' !in arnAccountID
    && forall kv | kv in kvs :: ' ' !in kv.key && '=' !in kv.key && ' ' !in kv.value
  }

  lemma ElementRoundTrip(kv: KeyValue)
    requires '=' !in kv.key
    ensures ParseElement(Element(kv)) == Some(kv)
  {
    CutAtFirst(kv.key, '=', kv.value);
    assert Element(kv) == kv.key + ['='] + kv.value;
  }

  lemma {:induction false} ParseElementsOfElements(kvs: seq<KeyValue>)
    requires forall kv | kv in kvs :: '=' !in kv.key
    ensures ParseElements(Elements(kvs)) == Some(kvs)
  {
    if kvs == [] {
    } else {
      ElementRoundTrip(kvs[0]);
      assert Elements(kvs)[1..] == Elements(kvs[1..]);
      ParseElementsOfElements(kvs[1..]);
      assert [kvs[0]] + kvs[1..] == kvs;
    }
  }

  lemma TargetRoundTrip(configName: string, arnAccountID: string)
    ensures ParseTarget(Target(configName, arnAccountID)) == (configName, arnAccountID) <==> ':' !in configName
  {
    if ':' !in configName && arnAccountID != "" {
      CutAtFirst(configName, ':', arnAccountID);
      assert configName + ":" + arnAccountID == configName + [':'] + arnAccountID;
    }
  }

  lemma SpaceFreeParts(configName: string, arnAccountID: string, kvs: seq<KeyValue>)
    requires Clean(configName, arnAccountID, kvs)
    ensures forall p | p in [Target(configName, arnAccountID)] + Elements(kvs) :: ' ' !in p
  {
    forall i | 0 <= i < |kvs| ensures ' ' !in Elements(kvs)[i] {
      assert kvs[i] in kvs;
    }
  }

  // What parses is free of separators, whatever text it came from.
  lemma ParsedIsClean(config: string)
    requires ParseConfig(config).Some?
    requires ParseTarget(Split(config, ' ')[0]).1 != "" || ':' !in Split(config, ' ')[0]
    ensures var (name, account, kvs) := ParseConfig(config).value; Clean(name, account, kvs)
  {
    var parts := Split(config, ' ');
    assert parts[0] in parts;
    var kvs := ParseElements(parts[1..]).value;
    forall i | 0 <= i < |kvs|
      ensures ' ' !in kvs[i].key && '=' !in kvs[i].key && ' ' !in kvs[i].value
    {
      assert parts[i + 1] in parts;
      assert parts[1..][i] == parts[i + 1];
      assert ParseElement(parts[i + 1]) == Some(kvs[i]);
      assert parts[i + 1] == kvs[i].key + ['='] + kvs[i].value;
    }
  }

  // The line can be read back exactly when no part contains a separator.
  lemma UniquelyDecodable(configName: string, arnAccountID: string, kvs: seq<KeyValue>)
    ensures ParseConfig(Rendered(Target(configName, arnAccountID), kvs)) == Some((configName, arnAccountID, kvs))
            <==> Clean(configName, arnAccountID, kvs)
  {
    var target := Target(configName, arnAccountID);
    var config := Rendered(target, kvs);
    var parts := [target] + Elements(kvs);
    if Clean(configName, arnAccountID, kvs) {
      SpaceFreeParts(configName, arnAccountID, kvs);
      SplitInvertsJoin(parts, ' ');
      assert parts[1..] == Elements(kvs);
      ParseElementsOfElements(kvs);
      TargetRoundTrip(configName, arnAccountID);
    } else if ParseConfig(config) == Some((configName, arnAccountID, kvs)) {
      var read := Split(config, ' ')[0];
      if ':' in read && ParseTarget(read).1 == "" {
        // An account was printed only if it was not empty, so the name itself holds the colon.
        NoAccountNoColon(configName, kvs);
      } else {
        ParsedIsClean(config);
      }
      assert false;
    }
  }

  lemma NoAccountNoColon(configName: string, kvs: seq<KeyValue>)
    requires ParseConfig(Rendered(configName, kvs)).Some?
    requires var read := Split(Rendered(configName, kvs), ' ')[0]; ':' in read && ParseTarget(read).1 == ""
    ensures ParseConfig(Rendered(configName, kvs)) != Some((configName, "", kvs))
  {
    var config := Rendered(configName, kvs);
    var parts := Split(config, ' ');
    assert parts[0] in parts;
    if ParseConfig(config) == Some((configName, "", kvs)) {
      assert parts[0] == configName + [':'];
      FirstPartOfJoin([configName] + Elements(kvs), ' ');
    }
  }

  // The first piece of a joined text is a prefix of its first part, or the whole of it and more.
  lemma FirstPartOfJoin(parts: seq<string>, sep: char)
    requires |parts| > 0
    requires sep !in parts[0]
    ensures Split(Join(parts, sep), sep)[0] == parts[0]
  {
    if |parts| > 1 {
      CutAtFirst(parts[0], sep, Join(parts[1..], sep));
    }
  }

  // Distinct clean configurations never print alike.
  lemma CleanConfigsPrintApart(n1: string, a1: string, kvs1: seq<KeyValue>, n2: string, a2: string, kvs2: seq<KeyValue>)
    requires Clean(n1, a1, kvs1) && Clean(n2, a2, kvs2)
    requires Rendered(Target(n1, a1), kvs1) == Rendered(Target(n2, a2), kvs2)
    ensures n1 == n2 && a1 == a2 && kvs1 == kvs2
  {
    UniquelyDecodable(n1, a1, kvs1);
    UniquelyDecodable(n2, a2, kvs2);
  }

  // Without the restriction two different requests collide.
  lemma SpacesCollide()
    ensures Rendered("region name=x", []) == Rendered("region", [KeyValue("name", "x")])
  {
    assert "name" + "=" + "x" == "name=x";
    assert Elements([KeyValue("name", "x")]) == ["name=x"];
    assert ["region"] + ["name=x"] == ["region", "name=x"];
    assert ["region", "name=x"][1..] == ["name=x"];
    assert ["region name=x"] + Elements([]) == ["region name=x"];
  }
}
