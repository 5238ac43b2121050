// operatorapi/resource_quota.go: merging the hard and used sides of a resource quota.
module ResourceQuota {
  import opened Wrappers

  const MAX_INT64: int := 0x7fff_ffff_ffff_ffff

  datatype Element = Element(name: string, hard: int, used: int)
  datatype Quota = Quota(name: string, elements: seq<Element>)

  // The answer of the API for a quota; Missing when there is none of that name.
  datatype Lookup = Found(name: string, hard: map<string, int>, used: map<string, int>) | Missing | Failed

  datatype QuotaError = QuotaUnavailable | NamespaceUnavailable | StorageClassesUnavailable

  // One element for every name on both sides, with its own two values.
  ghost predicate Merges(elements: seq<Element>, hard: map<string, int>, used: map<string, int>) {
    && (forall i, j | 0 <= i < j < |elements| :: elements[i].name != elements[j].name)
    && (forall e | e in elements ::
          e.name in hard && e.name in used && e.hard == hard[e.name] && e.used == used[e.name])
    && (forall name | name in hard && name in used :: Element(name, hard[name], used[name]) in elements)
  }

  function UnlimitedElement(storageClass: string): Element {
    Element(storageClass + ".storageclass.storage.k8s.io/requests.storage", MAX_INT64, 0)
  }

  method MergeQuota(hard: map<string, int>, used: map<string, int>) returns (elements: seq<Element>)
    ensures Merges(elements, hard, used)
  {
    var resourceElements: map<string, Element> := map[];
    var remaining := hard.Keys;
    while remaining != {}
      invariant remaining <= hard.Keys
      invariant resourceElements == map name | name in hard.Keys - remaining :: Element(name, hard[name], 0)
    {
      var name :| name in remaining;
      resourceElements := resourceElements[name := Element(name, hard[name], 0)];
      remaining := remaining - {name};
    }
    elements := [];
    remaining := used.Keys;
    while remaining != {}
      invariant remaining <= used.Keys
      invariant Merges(elements, hard, used - remaining)
    {
      var name :| name in remaining;
      if name in resourceElements {
        elements := elements + [resourceElements[name].(used := used[name])];
      }
      remaining := remaining - {name};
    }
    assert used - {} == used;
  }

  method GetResourceQuota(quota: Lookup, namespaceExists: bool, storageClasses: Option<seq<string>>)
    returns (r: Result<Quota, QuotaError>)
    ensures quota.Found? ==> r.Ok? && r.value.name == quota.name && Merges(r.value.elements, quota.hard, quota.used)
    ensures r == Err(QuotaUnavailable) <==> quota.Failed?
    ensures r == Err(NamespaceUnavailable) <==> quota.Missing? && !namespaceExists
    ensures r == Err(StorageClassesUnavailable) <==> quota.Missing? && namespaceExists && storageClasses.None?
    ensures quota.Missing? && r.Ok? ==>
              && r.value.name == "" && |r.value.elements| == |storageClasses.value|
              && forall i | 0 <= i < |storageClasses.value| ::
                   r.value.elements[i] == UnlimitedElement(storageClasses.value[i])
    ensures quota.Missing? && r.Ok? ==>
              forall i | 0 <= i < |storageClasses.value| ::
                && r.value.elements[i].name == storageClasses.value[i] + ".storageclass.storage.k8s.io/requests.storage"
                && r.value.elements[i].hard == 0x7fff_ffff_ffff_ffff && r.value.elements[i].used == 0
  {
    match quota
    case Failed => return Err(QuotaUnavailable);
    case Missing =>
      if !namespaceExists {
        return Err(NamespaceUnavailable);
      }
      if storageClasses.None? {
        return Err(StorageClassesUnavailable);
      }
      var elements := [];
      for i := 0 to |storageClasses.value|
        invariant |elements| == i
        invariant forall k | 0 <= k < i :: elements[k] == UnlimitedElement(storageClasses.value[k])
      {
        elements := elements + [UnlimitedElement(storageClasses.value[i])];
      }
      return Ok(Quota("", elements));
    case Found(name, hard, used) =>
      var elements := MergeQuota(hard, used);
      return Ok(Quota(name, elements));
  }

  // The iteration order of the two maps decides the order of the elements and nothing else.
  lemma MergeIgnoresOrder(a: seq<Element>, b: seq<Element>, hard: map<string, int>, used: map<string, int>)
    requires Merges(a, hard, used) && Merges(b, hard, used)
    ensures multiset(a) == multiset(b)
  {
    forall e ensures multiset(a)[e] == multiset(b)[e] {
      OncePerName(a, e);
      OncePerName(b, e);
      assert e in a <==> e.name in hard && e.name in used && e == Element(e.name, hard[e.name], used[e.name]);
      assert e in b <==> e.name in hard && e.name in used && e == Element(e.name, hard[e.name], used[e.name]);
    }
  }

  lemma {:induction false} OncePerName(s: seq<Element>, e: Element)
    requires forall i, j | 0 <= i < j < |s| :: s[i].name != s[j].name
    ensures multiset(s)[e] == if e in s then 1 else 0
  {
    if s == [] {
    } else {
      var init, last := s[..|s| - 1], s[|s| - 1];
      OncePerName(init, e);
      assert s == init + [last];
    }
  }
}
