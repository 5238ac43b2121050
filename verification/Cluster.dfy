// The Kubernetes cluster behind the API clients: a store of secrets and tenants that any call
// may fail to change. A call that reports an error has changed nothing.
module Cluster {
  import opened Wrappers

  datatype SecretId = SecretId(ns: string, name: string)
  datatype Secret = Secret(data: map<string, string>, kind: string, tenant: string, immutable: bool)

  datatype EnvVar = EnvVar(name: string, value: string)
  datatype TenantId = TenantId(ns: string, name: string)
  // The parts of a tenant's specification the console reads; a missing secret name is None.
  datatype Tenant = Tenant(id: TenantId, env: seq<EnvVar>, credsSecret: Option<string>, configuration: Option<string>,
                           externalCert: bool, kesEnabled: bool, kesExternalCert: bool, externalClientCert: bool)

  datatype Pods = TenantPods(tenantName: string) | KesPods(tenantName: string)

  datatype GetError = NotFound | Unavailable

  // What happened, in order: effective deletions and creations, and every attempt to restart pods.
  datatype Event = Deleted(id: SecretId) | Created(id: SecretId) | Restarted(ns: string, pods: Pods)

  class Client {
    var secrets: map<SecretId, Secret>
    var tenants: map<TenantId, Tenant>
    ghost var events: seq<Event>
    // Some call has reported an error that nothing in the cluster explains.
    ghost var faulty: bool

    method GetSecret(id: SecretId) returns (r: Result<Secret, GetError>)
      modifies this`faulty
      ensures r.Ok? ==> id in secrets && r.value == secrets[id]
      ensures r == Err(NotFound) ==> id !in secrets
      ensures faulty == (old(faulty) || (r.Err? && r.error != NotFound))
    {
      var reachable: bool := *;
      if !reachable {
        faulty := true;
        return Err(Unavailable);
      }
      r := if id in secrets then Ok(secrets[id]) else Err(NotFound);
    }

    method DeleteSecret(id: SecretId) returns (ok: bool)
      modifies this`secrets, this`events, this`faulty
      ensures ok ==> id in old(secrets) && secrets == old(secrets) - {id} && events == old(events) + [Deleted(id)]
      ensures !ok ==> secrets == old(secrets) && events == old(events)
      ensures faulty == (old(faulty) || (!ok && id in old(secrets)))
    {
      ok := *;
      faulty := faulty || (!ok && id in secrets);
      ok := ok && id in secrets;
      if ok {
        secrets := secrets - {id};
        events := events + [Deleted(id)];
      }
    }

    method CreateSecret(id: SecretId, secret: Secret) returns (ok: bool)
      modifies this`secrets, this`events, this`faulty
      ensures ok ==> id !in old(secrets) && secrets == old(secrets)[id := secret]
      ensures ok ==> events == old(events) + [Created(id)]
      ensures !ok ==> secrets == old(secrets) && events == old(events)
      ensures faulty == (old(faulty) || (!ok && id !in old(secrets)))
    {
      ok := *;
      faulty := faulty || (!ok && id !in secrets);
      ok := ok && id !in secrets;
      if ok {
        secrets := secrets[id := secret];
        events := events + [Created(id)];
      }
    }

    method UpdateSecret(id: SecretId, secret: Secret) returns (ok: bool)
      modifies this`secrets, this`faulty
      ensures ok ==> id in old(secrets) && !old(secrets)[id].immutable && secrets == old(secrets)[id := secret]
      ensures !ok ==> secrets == old(secrets)
      ensures faulty == (old(faulty) || (!ok && id in old(secrets) && !old(secrets)[id].immutable))
    {
      ok := *;
      faulty := faulty || (!ok && id in secrets && !secrets[id].immutable);
      ok := ok && id in secrets && !secrets[id].immutable;
      if ok {
        secrets := secrets[id := secret];
      }
    }

    method DeletePodCollection(ns: string, pods: Pods) returns (ok: bool)
      modifies this`events, this`faulty
      ensures events == old(events) + [Restarted(ns, pods)]
      ensures faulty == (old(faulty) || !ok)
    {
      ok := *;
      faulty := faulty || !ok;
      events := events + [Restarted(ns, pods)];
    }

    method TenantGet(id: TenantId) returns (r: Option<Tenant>)
      modifies this`faulty
      ensures r.Some? ==> id in tenants && r.value == tenants[id]
      ensures faulty == (old(faulty) || (r.None? && id in tenants))
    {
      var reachable: bool := *;
      faulty := faulty || (!reachable && id in tenants);
      r := if reachable && id in tenants then Some(tenants[id]) else None;
    }

    method TenantUpdate(tenant: Tenant) returns (ok: bool)
      modifies this`tenants, this`faulty
      ensures ok ==> tenant.id in old(tenants) && tenants == old(tenants)[tenant.id := tenant]
      ensures !ok ==> tenants == old(tenants)
      ensures faulty == (old(faulty) || (!ok && tenant.id in old(tenants)))
    {
      ok := *;
      faulty := faulty || (!ok && tenant.id in tenants);
      ok := ok && tenant.id in tenants;
      if ok {
        tenants := tenants[tenant.id := tenant];
      }
    }
  }
}
