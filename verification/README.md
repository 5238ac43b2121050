# MinIO Console operator: verified model

A Dafny model of the parts of the MinIO Console operator API that carry state, loops and protocol
steps, with machine-checked proofs of what they keep. `dafny verify dfyconfig.toml` checks all of it.

| file | models |
|---|---|
| `Shutdown.dfy`, `ShutdownRuns.dfy` | the graceful shutdown of `operatorapi/server.go`, as a step relation over any number of servers, callers and signals, and properties of its whole runs |
| `Cluster.dfy` | the Kubernetes cluster: a mutable store of secrets and tenants whose calls may fail at any time, with a record of what happened |
| `TenantSecrets.dfy` | the delete-then-create loops over secrets |
| `Encryption.dfy`, `KesConfig.dfy`, `TenantEncryption.dfy` | the validators of an encryption request, the compiler of the KES (key encryption service) configuration, and the update of a running tenant |
| `TenantConfig.dfy`, `License.dfy` | the `config.env` printer, the three configuration layers, and the propagation of a license to all tenants |
| `Nodes.dfy` | how much memory each of a number of nodes can be given |
| `Drives.dfy`, `ResourceQuota.dfy` | listing and formatting drives, merging a resource quota |
| `AdminConfig.dfy` | the one-line configuration string of the admin API |
| `Wrappers.dfy`, `Text.dfy`, `Counting.dfy`, `Sorting.dfy` | shared: options and results, separators and numerals, totals, the contract of an in-place sort |

How the original is rendered:

- Objects that methods update are classes (`Cluster.Client`, `Drives.DriveClient`, `AdminConfig.MinioAdmin`).
  A failing API call is a nondeterministic choice inside their methods, so a contract of a method
  that calls them holds for every pattern of failures. A call that reports an error has changed
  nothing; creating an existing secret, deleting a missing one and updating an immutable one fail.
  The ghost flag `faulty` records whether some call failed although nothing in the cluster stood in
  its way. While it is not set, the contracts say exactly which requests succeed, so no method meets
  its contract by giving up.
- The order in which a Go map is ranged over is a nondeterministic choice too.
- The shutdown protocol interleaves goroutines, so it is a state machine over values: `Enabled` and
  `Apply` give its atomic steps, `After` its runs.
- Byte slices and strings are both `string`. A nil pointer is `None`; a nil dereference is the
  outcome `NilDereference`.
- Library code that is not part of this model is a function parameter, and every theorem holds for
  all such functions: base64 decoding, certificate parsing and hashing, marshalling, the rewriting of
  device names and messages. `validate.Required` and `swag.IsZero` are taken to test a pointer for
  nil. The parser `miniov2.ParseRawConfiguration` is assumed to read back what the printer writes,
  except for the keys `accesskey` and `secretkey`, and to find only bindings that stand on one line
  (`TenantConfig.ParserContract`; `DecodeMeetsContract` shows that the assumption can be met).
  `GetEnvVars` is taken to return the tenant's own environment list. `sort.Slice` is taken to
  permute and to order; its result is otherwise arbitrary, as it is not stable.
- `int32(len(x))` equals `len(x)` for slices of at most 2^31 - 1 elements, which `Nodes` requires.

What the proofs found, beyond what the code promises:

- After the first failed `server.Shutdown` the collector stops receiving, so every shutdown goroutine
  that reports later stays blocked on its send for ever (`BlockedForEver`). `StuckRunHasEnded` gives
  their number, and `BlockedExactlyFromTwoServers` shows that two servers are enough and one is not.
- A failed replacement of an external certificate loses the old secret exactly if the pair was filled
  and the secret existed, when no call fails: it is deleted before the new pair is decoded
  (`LostExactlyWhenFilled`).
- When no call fails, an encryption request that does not compile always destroys the KES
  configuration secret (`CreateOrReplaceKesConfigurationSecrets`). Without a failing call, an update
  without client files always removes the old client secret; a failed deletion lets it survive
  (`KesStored`).
- Writing a license drops every entry of a configuration secret but the file. A tenant, listed or
  not, whose credentials are kept in any listed configuration loses them; one write can harm another
  tenant than the one it is for (`HarmlessExactlyWhenNotShared`). A refresh keeps the other bindings
  of a tenant, whatever the secrets hold, exactly if its credentials are not in a listed
  configuration and its listing is not out of date (`RefreshHarmsExactly`).
- A license that spans lines is never carried by a configuration file (`MultilineLicenseIsLost`).
- Nodes are counted down once for every matching taint, so a cluster with enough schedulable and
  enough non-master nodes can be refused (`DoublyTaintedNodeIsCountedTwice`,
  `DoublyTaintedMasterIsCountedTwice`). `AcceptedExactlyWhenEnough` gives the condition under which
  none is.
- A drive whose last failing condition has no message is listed without a star, whatever its earlier
  conditions say (`SilentProblemHidesEarlier`).
- A negative number of nodes makes `getMaxClusterMemory` panic (`GetMaxClusterMemory`).

## Model

| member | source | states |
|---|---|---|
| Shutdown.RunKeepsInv | operatorapi/server.go:420-468 | in every run, for any number of servers, callers and signals, the joint invariant of the close flag, the wait group, the serving goroutines, the results and the handler holds |
| Shutdown.StepKeepsCloseInv | operatorapi/server.go:421-426 | pending closes and closes done add up to 1 if the compare-and-swap was won and to 0 otherwise |
| Shutdown.StepKeepsGroupInv | operatorapi/server.go:187-346 | the wait group's counter equals the serving goroutines plus the handler that have not yet called Done |
| Shutdown.StepKeepsStoppedInv | operatorapi/server.go:205-213 | a server goroutine stops serving only after its own Shutdown has begun |
| Shutdown.StepKeepsReceivedInv | operatorapi/server.go:443-464 | the results received are those of the workers received from, and all are good exactly if those workers succeeded |
| Shutdown.StepKeepsHandlerInv | operatorapi/server.go:428-468 | each stage of handleShutdown keeps its part: receives equal iterations while there is no failure, and nothing is received after one |
| ShutdownRuns.HooksInOrder | operatorapi/server.go:440-467 | ServerShutdown runs at most once, after PreServerShutdown and after every server.Shutdown returned nil |
| ShutdownRuns.HandlerInOrder | operatorapi/server.go:428-468 | every step of handleShutdown is taken once and follows the one before: all servers started, handler started, channel closed and woken, pre-hook, goroutines spawned, collecting, hook or no hook, cancel, Done |
| ShutdownRuns.ShutdownsFollowPreHook | operatorapi/server.go:440-451 | no server.Shutdown begins before PreServerShutdown has run; each begins and returns once, its server stops serving after it began, and its result is received once, after it was given |
| ShutdownRuns.SkipsFollowFailure | operatorapi/server.go:460-467 | the collector skips a receive, or the hook, only after it has received a failure |
| ShutdownRuns.PreHookOnce | operatorapi/server.go:433-441 | PreServerShutdown runs at most once, and only after the channel was closed |
| ShutdownRuns.ClosedAtMostOnce | operatorapi/server.go:421-426 | no interleaving of callers and signals closes the shutdown channel twice |
| ShutdownRuns.CallsInOrder | operatorapi/server.go:421-426 | a caller swaps once, after it was called or signalled, and only the caller whose swap was the first closes the channel |
| ShutdownRuns.HandlerDoneIsLast | operatorapi/server.go:429-438 | handleShutdown's wg.Done follows its context's cancel and its decision about the hook |
| ShutdownRuns.ServeReturnsLast | operatorapi/server.go:342-346 | Serve returns only after every server goroutine stopped and handleShutdown called Done |
| ShutdownRuns.CollectorCanMove | operatorapi/server.go:460-464 | in the middle of the collector loop some party can always move: the loop never deadlocks |
| ShutdownRuns.SomePartyCanMove | operatorapi/server.go:420-468 | once Shutdown was called, the protocol is never deadlocked before Serve has returned |
| ShutdownRuns.RunGoesOn | operatorapi/server.go:420-468 | a requested run that has not ended is extended by an action of the protocol that lowers a natural-number measure |
| ShutdownRuns.RunToEnd | operatorapi/server.go:342-346 | every run in which Shutdown was called can be extended until Serve has returned |
| ShutdownRuns.MoveLowersRank | operatorapi/server.go:420-524 | every action except an ignored signal lowers the measure |
| ShutdownRuns.RunsAreBounded | operatorapi/server.go:171-524 | with n servers and m callers a run makes at most 9n + 3m + 14 moves |
| ShutdownRuns.StuckRunHasEnded | operatorapi/server.go:443-467 | a requested run that cannot go on has ended: Serve returned, one close, one pre-hook, the post-hook ran exactly if all n shutdowns returned nil; the collector received up to and including the first failure in arrival order, or n results, and every other goroutine is blocked on its send |
| ShutdownRuns.BlockedForEver | operatorapi/server.go:443-464 | a goroutine blocked on its send to a collector that stopped receiving is blocked after every continuation of the run |
| ShutdownRuns.BlockedExactlyFromTwoServers | operatorapi/server.go:443-467 | some run of n servers, in which Serve returned, leaves a goroutine blocked exactly if n is at least 2 |
| ShutdownRuns.ReachBlocked | operatorapi/server.go:443-464 | with two servers or more a run is reached in which the first one failed and the second one is blocked |
| ShutdownRuns.Collect | operatorapi/server.go:460-464 | the collector loop succeeds exactly if all results are good, and receives up to and including the first failure in arrival order |
| TenantSecrets.CreateOrReplaceSecrets | operatorapi/operator_tenants_helper.go:228-259 | on success the references are those of the kept inputs and the store is overwritten with exactly their secrets; it fails only if a call failed, and then the entries before some j are replaced, entry j is unchanged or absent, and nothing else has changed |
| TenantSecrets.ReplaceSecret | operatorapi/operator_tenants_helper.go:232-251 | a replaced secret has its new value; otherwise a call failed and it is unchanged or absent |
| TenantSecrets.StoredIsKept | operatorapi/operator_tenants_helper.go:230-257 | a name is written exactly if a non-empty named input bears it |
| TenantSecrets.StoredIsLastKept | operatorapi/operator_tenants_helper.go:230-257 | a written name has exactly the content of the last such input, as a mutable opaque secret of the tenant |
| TenantSecrets.ReferencesInOrder | operatorapi/operator_tenants_helper.go:252-258 | there is one reference for every kept input, in input order |
| TenantSecrets.CertNamesDiffer | operatorapi/operator_tenants_helper.go:266 | the numbered secret names are pairwise distinct |
| TenantSecrets.TlsSecret | operatorapi/operator_tenants_helper.go:276-298 | the secret of a pair has exactly the entries tls.crt and tls.key, each with its own decoded half |
| TenantSecrets.ReplaceCertSecret | operatorapi/operator_tenants_helper.go:267-302 | one pair is decoded and stored, or the error tells which check failed; when no call failed the entry is then absent if the pair was filled and unchanged otherwise |
| TenantSecrets.CreateOrReplaceExternalCertSecrets | operatorapi/operator_tenants_helper.go:263-310 | on success every pair is stored and the references come back in order; on an error at j the earlier entries are replaced, j failed as above, and no other secret changed; if no call fails, it succeeds exactly if all pairs can be decoded |
| TenantSecrets.LostExactlyWhenFilled | operatorapi/operator_tenants_helper.go:265-302 | with no failing call the loop stops at the first pair that cannot be decoded, and a secret is lost exactly if it is the one of that pair, existed, and the pair was filled |
| TenantSecrets.StoppedEntryUnchanged | operatorapi/operator_tenants_helper.go:265-302 | that entry is unchanged exactly if its pair was not filled or its secret did not exist |
| TenantSecrets.CertHoldsItsPair | operatorapi/operator_tenants_helper.go:265-307 | after success the secret numbered i has exactly the decoded certificate i under tls.crt and the decoded key i under tls.key, and is an immutable TLS secret of the tenant; reference i bears its name |
| TenantSecrets.OnlyCertNames | operatorapi/operator_tenants_helper.go:265-307 | no secret under another name is created |
| Encryption.ValidMeansComplete | models/encryption_configuration.go:166-310 | Validate accepts a configuration exactly if every part present has its required fields |
| Encryption.VaultAccepted | models/vault_configuration.go:64-286 | a Vault part is accepted exactly if endpoint, AppRole, its id and its secret are present |
| Encryption.VaultReports | models/vault_configuration.go:64-286 | the fields reported are exactly the missing ones, by their names |
| Encryption.AwsAccepted | models/aws_configuration.go:45-298 | an AWS part is accepted exactly if endpoint, region and both credentials are present |
| Encryption.AwsReports | models/aws_configuration.go:45-298 | the fields reported are exactly the missing ones, by their names |
| Encryption.GemaltoAccepted | models/gemalto_configuration.go:45-376 | a Gemalto part is accepted exactly if endpoint, both credentials and the CA of any TLS part are present |
| Encryption.GemaltoReports | models/gemalto_configuration.go:45-376 | the fields reported are exactly the missing ones, by their names |
| Encryption.GcpAccepted | models/gcp_configuration.go:45-180 | a GCP part is accepted exactly if its project id is present |
| Encryption.GcpReports | models/gcp_configuration.go:45-180 | the fields reported are exactly the missing ones, by their names |
| Encryption.KeyPairAccepted | models/key_pair_configuration.go:49-82 | a key pair is accepted exactly if both halves are present |
| Encryption.KeyPairReports | models/key_pair_configuration.go:49-82 | the fields reported are exactly the missing ones, by their names |
| KesConfig.CompileInPlace | operatorapi/operator_tenants_helper.go:323-501 | the step-by-step construction of configuration and files equals the specification `Compile`, errors and nil dereferences included |
| KesConfig.CompileVaultInPlace | operatorapi/operator_tenants_helper.go:382-432 | the same for the Vault branch |
| KesConfig.MountVaultFiles | operatorapi/operator_tenants_helper.go:405-432 | the mounted files and their paths are those of the Vault TLS part |
| KesConfig.CompileGemaltoInPlace | operatorapi/operator_tenants_helper.go:452-481 | the same for the Gemalto branch |
| KesConfig.PolicyAdmitsTheClient | operatorapi/operator_tenants_helper.go:323-361 | the single policy has the three paths and admits exactly one identity: that of the decoded client certificate, or the placeholder if the request has none |
| KesConfig.ServerSettings | operatorapi/operator_tenants_helper.go:342-371 | address, root, server key and certificate paths, cache times and logs are the fixed ones |
| KesConfig.MountPaths | operatorapi/operator_tenants_helper.go:382-481 | each mounted file has its fixed path, and the ping and retry times are the fixed ones |
| KesConfig.CompilesExactly | operatorapi/operator_tenants_helper.go:323-501 | a request compiles exactly if its pointers are set, its client certificate has an identity, Vault has its AppRole, and the certificates of the first provider can be decoded |
| KesConfig.ErrorsExactly | operatorapi/operator_tenants_helper.go:327-401 | the bad-certificate and the missing-AppRole errors arise exactly under their conditions |
| KesConfig.FirstProviderOnly | operatorapi/operator_tenants_helper.go:382-501 | exactly the first provider present, of Vault, AWS, Gemalto, GCP, is configured, and only Vault and Gemalto mount files |
| KesConfig.OnlyFirstProviderMatters | operatorapi/operator_tenants_helper.go:323-501 | two requests with the same client certificate and the same first provider compile alike |
| KesConfig.VaultPathsMatchFiles | operatorapi/operator_tenants_helper.go:405-432 | each TLS path is set exactly if its file is mounted, and the file is the decoded text |
| KesConfig.VaultReadsBack | operatorapi/operator_tenants_helper.go:382-404 | every Vault setting can be read back from the configuration |
| KesConfig.AwsReadsBack | operatorapi/operator_tenants_helper.go:433-451 | every AWS setting can be read back from the configuration |
| KesConfig.GemaltoReadsBack | operatorapi/operator_tenants_helper.go:452-481 | every Gemalto setting but TLS can be read back from the configuration |
| KesConfig.GcpReadsBack | operatorapi/operator_tenants_helper.go:482-501 | every GCP setting can be read back from the configuration |
| KesConfig.GemaltoPathsMatchFiles | operatorapi/operator_tenants_helper.go:461-472 | the CA path is set exactly if the CA file is mounted, which is the decoded text |
| KesConfig.SafeExactlyWhenDereferenceable | operatorapi/operator_tenants_helper.go:327-501 | the compiler is free of nil dereferences for every decoder exactly if the pointers of the chosen provider and the client certificate are set |
| KesConfig.DereferenceableNeverPanics | operatorapi/operator_tenants_helper.go:327-501 | with those pointers set no decoder makes it panic |
| KesConfig.ValidatedNeverPanics | operatorapi/operator_tenants_helper.go:327-403 | a validated request never dereferences nil and never meets the missing-AppRole error |
| TenantEncryption.DeleteKesSecrets | operatorapi/operator_tenants_helper.go:313-322 | some of the two secrets are gone and nothing else has changed |
| TenantEncryption.CreateKesSecrets | operatorapi/operator_tenants_helper.go:502-550 | the client secret holds exactly the files, if any, and the configuration secret the marshalled configuration; on failure at most the client secret was created |
| TenantEncryption.CreateOrReplaceKesConfigurationSecrets | operatorapi/operator_tenants_helper.go:312-551 | on success both secrets are as compiled and the client reference is non-nil exactly if there are files; panics and the AppRole error occur exactly when the compiler has them; in every case only the two names change and a failed configuration secret is unchanged or absent; if no call fails, it succeeds exactly if the request compiles and can be marshalled, the configuration secret is destroyed if not, and a success without files leaves no client secret |
| TenantEncryption.KesContents | operatorapi/operator_tenants_helper.go:502-547 | after an update the configuration secret of the tenant holds exactly the marshalled configuration and the client secret exactly the compiled files, under their names, both immutable |
| TenantEncryption.CertContents | operatorapi/operator_tenants_helper.go:104-120 | after an update the server and the MinIO client certificate secrets hold each half of their own pair, under their names |
| TenantEncryption.TenantUpdateEncryption | operatorapi/operator_tenants_helper.go:94-145 | whatever calls fail: MinIO pods restart at most once and after the client-certificate secret was created, KES pods at most once, last, and after the configuration secret was created, which still exists; disabled encryption changes nothing; success applies every part of the request and restarts the pods concerned; no secret but the four of the update changes; a validated request does not panic; if no call fails, it succeeds exactly if the tenant exists and the request is usable, and otherwise the KES configuration is destroyed if the certificates were usable and untouched if not |
| TenantEncryption.ReplaceCerts | operatorapi/operator_tenants_helper.go:104-126 | both certificates are replaced in order, with at most one restart of the MinIO pods, at the end; no other secret changes; if no call fails, it succeeds exactly if the certificates are usable |
| TenantEncryption.StepsInOrder | operatorapi/operator_tenants_helper.go:113-142 | putting the steps in this order yields that order of restarts |
| TenantEncryption.CertsInOrder | operatorapi/operator_tenants_helper.go:104-126 | the client certificate is stored without touching the server certificate |
| TenantEncryption.AppliedInOrder | operatorapi/operator_tenants_helper.go:104-135 | the KES step leaves the certificates of the earlier steps in place |
| TenantEncryption.TenantUpdateCertificates | operatorapi/operator_tenants_helper.go:43-67 | MinIO pods restart at most once, last, and only after all certificates were replaced; without new certificates nothing changes; if no call fails, it succeeds exactly if the tenant exists and all pairs can be decoded |
| TenantConfig.GenerateTenantConfigurationFile | operatorapi/utils.go:59-65 | in whatever order the map is ranged over, the file holds one line for every binding, and it reads back as the map exactly if the map is printable |
| TenantConfig.BindingStands | operatorapi/utils.go:59-65 | every binding of the map stands in the printed order |
| TenantConfig.LineText | operatorapi/utils.go:59-65 | a binding is printed as export key="value" on one line |
| TenantConfig.PrinterHasLeftInverse | operatorapi/utils.go:59-65 | for every iteration order the file reads back as the map exactly if keys have no '=' or newline and values no newline |
| TenantConfig.PrintableConfigsPrintApart | operatorapi/utils.go:59-65 | different printable maps never print alike, in any two orders |
| TenantConfig.NewlinesCollide | operatorapi/utils.go:59-65 | a value with a newline makes two different maps print alike |
| TenantConfig.DecodeMeetsContract | operatorapi/operator_subscription.go:130-138 | the assumption made of the parser can be met |
| TenantConfig.EnvHoldsLast | operatorapi/utils.go:33-36 | the environment binds exactly the names of its variables, each to the value of the last one |
| TenantConfig.LayersLookUp | operatorapi/utils.go:33-57 | the layering is that lookup, for every key |
| TenantConfig.GetTenantConfiguration | operatorapi/utils.go:28-57 | every key, those of the parser included, has the value of the file, else of the credentials secret, else of the last variable of its name; missing or unreadable credentials are the only error of a tenant, and the file is left out only if it is missing or a call failed |
| License.RelicenseEnv | operatorapi/operator_subscription.go:152-174 | the append loop computes the relicensed environment |
| License.RelabelKeepsOrder | operatorapi/operator_subscription.go:155-167 | every variable keeps its place, and only license variables change their value |
| License.RelicensedInPlace | operatorapi/operator_subscription.go:152-174 | every variable keeps its place and name, only a license variable has a new value, and a missing one is appended at the end |
| License.RelicensedMap | operatorapi/operator_subscription.go:155-174 | the new environment means the old one with the license bound |
| License.LicensedKeys | operatorapi/operator_subscription.go:130-138 | the bindings printed back are those read but accesskey and secretkey, with the license |
| License.AddSubscriptionLicenseToTenant | operatorapi/operator_subscription.go:120-182 | on success the configuration secret is rewritten, or else the tenant's environment relicensed, and nothing else has changed; on failure nothing has; if no call fails, it succeeds exactly if the secret is there, holds a configuration file and is mutable, or the tenant is there |
| License.RewritingKeepsOthers | operatorapi/operator_subscription.go:128-141 | a rewritten file carries the license and reads as before on every key but the license and the parser's two |
| License.RewrittenKeepsTheRest | operatorapi/operator_subscription.go:139-141 | a rewritten secret keeps its kind, tenant and mutability, and of its data only the file |
| License.RelabelledKeepsTheRest | operatorapi/operator_subscription.go:152-176 | of a tenant only the environment is changed |
| License.RewrittenTwice | operatorapi/operator_subscription.go:128-141 | rewriting a shared file again is the same as rewriting it once |
| License.MultilineLicenseIsLost | operatorapi/operator_subscription.go:134-141 | no configuration file carries a license with a newline |
| License.UpdateTenantLicenses | operatorapi/operator_subscription.go:219-228 | for a license on one line: after success every listed tenant carries the license, after an error at j every tenant before j does, even with shared secrets and repeated listings; the configurations listed before j are rewritten and no other secret changes; a tenant without a configuration holds its last listing relicensed and the others are unchanged; unless the listing harms a tenant, all its other bindings are as before; it stops only at a failing call or a tenant that cannot be updated |
| License.StepCarries | operatorapi/operator_subscription.go:224-228 | updating one more tenant, even through a shared secret, does not undo the earlier ones |
| License.RefreshKeepsFiles | operatorapi/operator_subscription.go:128-148 | a refreshed file carries the license and keeps its other bindings, and nothing else is left in its secret |
| License.SurvivesExactly | operatorapi/operator_subscription.go:120-182 | the other bindings of a tenant survive the rewriting of any set of configurations, for all contents of the secrets, exactly if it reads the same sources before and after and its credentials are in none of them |
| License.RefreshHarmsExactly | operatorapi/operator_subscription.go:219-228 | a refresh keeps the other bindings of a tenant, for all contents of the secrets, exactly if its credentials are in no listed configuration and its last listing without a configuration, if any, has the sources it has in the cluster |
| License.FreshListingHarmless | operatorapi/operator_subscription.go:219-228 | an up-to-date listing is harmless exactly if no tenant keeps its credentials in a listed configuration |
| License.ReadBack | operatorapi/operator_subscription.go:122-148 | a rewritten configuration secret gives the tenant the license and leaves every other key but the parser's two as it was, unless credentials and configuration share the secret |
| License.WriteThenRead | operatorapi/operator_subscription.go:122-148 | reading, writing the license and reading again: if no call fails, the second reading has the license and agrees with the first on every other key but the parser's two, unless credentials and configuration share a secret |
| License.SharedSecretLosesBindings | operatorapi/operator_subscription.go:139-141 | for every tenant whose credentials are in the written configuration, its own or another's, there is content of which the write destroys a binding |
| License.HarmlessExactlyWhenNotShared | operatorapi/operator_subscription.go:122-148 | one write keeps the other bindings of a reader, the tenant written or another one, for all contents exactly if the reader's credentials are not in the written configuration |
| License.SaveSubscriptionLicense | operatorapi/operator_subscription.go:285-315 | on success the license secret holds exactly the license and no other secret changed; otherwise none did, and a call failed or the secret is immutable; an existing secret keeps everything but its data |
| License.GetSubscriptionLicense | operatorapi/operator_subscription.go:105-117 | a license returned is the one stored, and a stored one is returned unless a call fails |
| Nodes.GetMaxClusterMemory | operatorapi/operator_nodes.go:126-152 | the result is the largest amount that numNodes of the sizes can all provide, which stands at len-numNodes after sorting; 0 if there are too few sizes; the index runs out of range exactly for negative numNodes |
| Nodes.SortedOrderStatistic | operatorapi/operator_nodes.go:131-150 | the element at len-n of sorted sizes is that amount |
| Nodes.BestIsUnique | operatorapi/operator_nodes.go:124-126 | there is only one such amount |
| Nodes.BestIgnoresOrder | operatorapi/operator_nodes.go:126-152 | the answer does not depend on the order of the nodes |
| Nodes.BestIsAntitone | operatorapi/operator_nodes.go:126-152 | asking for more nodes never yields more memory |
| Nodes.CountNodes | operatorapi/operator_nodes.go:69-82 | the two counters are the number of nodes less one for every matching taint |
| Nodes.NodesAreCounted | operatorapi/operator_nodes.go:69-113 | the totals of schedulable, non-master and capable nodes are the numbers of nodes without the respective taints |
| Nodes.CollectMemory | operatorapi/operator_nodes.go:96-113 | the sizes are those of the nodes without NoSchedule and NoExecute taints that report memory |
| Nodes.GetMaxAllocatableMemory | operatorapi/operator_nodes.go:56-122 | every error arises exactly under its condition; on success numNodes nodes lack NoSchedule, numNodes eligible nodes have the amount (or it is 0 for want of sizes), and no larger amount is possible |
| Nodes.CapableNodesAreSizes | operatorapi/operator_nodes.go:96-115 | counting sizes counts eligible nodes |
| Nodes.SchedulableCounter | operatorapi/operator_nodes.go:69-77 | the counter falls short of the schedulable nodes by the NoSchedule taints beyond the first of each node, and equals them exactly if no node has two |
| Nodes.NonMasterCounter | operatorapi/operator_nodes.go:69-82 | the same for the nodes without a master taint |
| Nodes.AcceptedExactlyWhenEnough | operatorapi/operator_nodes.go:69-94 | requests for four nodes or more are accepted for exactly the numbers of nodes of which there are enough schedulable and enough non-master ones, if and only if there are fewer than four or the surplus of either kind covers the taints of that kind counted twice |
| Nodes.SingleTaintsAreCovered | operatorapi/operator_nodes.go:69-82 | that condition holds if no node has two NoSchedule or two master taints |
| Nodes.DoublyTaintedNodeIsCountedTwice | operatorapi/operator_nodes.go:56-94 | a cluster with four schedulable and at least four non-master nodes that refuses a request for four, because one node has two NoSchedule taints |
| Nodes.DoublyTaintedMasterIsCountedTwice | operatorapi/operator_nodes.go:56-94 | another one, which refuses it because a master has two taints under the master key, of which one is NoSchedule |
| Drives.CheckDrive | operatorapi/operator_direct_csi.go:256-281 | the verdict is attempted exactly for a requested drive that may be formatted, and a refusal names the status that is the reason, or the filesystem if no status is |
| Drives.VerdictIsUnique | operatorapi/operator_direct_csi.go:256-281 | those conditions determine the verdict |
| Drives.FormatDrive | operatorapi/operator_direct_csi.go:246-300 | one listed drive is updated, refused or skipped as its verdict says, and the store changes by a successful update only |
| Drives.AttemptedExactly | operatorapi/operator_direct_csi.go:246-295 | the attempted updates are exactly those of the listed drives that are requested, neither unavailable nor in use, and forced or neither ready nor holding a filesystem |
| Drives.UpdatesInFull | operatorapi/operator_direct_csi.go:246-295 | the updates are sent, in list order, for exactly the requested drives that are neither unavailable nor in use and, without force, neither ready nor holding a filesystem; each is its listed drive, owned, with an xfs format requested, and otherwise unchanged |
| Drives.ForceOnlyEnlarges | operatorapi/operator_direct_csi.go:246-295 | with force the drives attempted without it are attempted in the same order, with others in between |
| Drives.FormatDrives | operatorapi/operator_direct_csi.go:218-303 | the three errors arise exactly under their conditions; attempts and issues are those of a walk over the list, and the store is changed by the successful attempts only, which create no drive |
| Drives.AttemptsFollowTheList | operatorapi/operator_direct_csi.go:246-295 | the updates sent are exactly those of the drives that pass, in list order |
| Drives.IssuesFollowTheList | operatorapi/operator_direct_csi.go:244-300 | each issue is about its own requested drive, in list order, and a refused drive has the reason of its status |
| Drives.EveryMatchIsAccountedFor | operatorapi/operator_direct_csi.go:257-295 | requested drives in the list equal successful updates plus issues |
| Drives.OthersUnchanged | operatorapi/operator_direct_csi.go:283-294 | a drive no successful update names is unchanged |
| Drives.LastUpdateHolds | operatorapi/operator_direct_csi.go:283-294 | a drive that was updated holds the last update that succeeded |
| Drives.BeforeIsTotal | operatorapi/operator_direct_csi.go:90-98 | the text comparison is a total order without ties between different texts |
| Drives.BeforeIsLexicographic | operatorapi/operator_direct_csi.go:90-98 | the text comparison is that of dictionaries: the first difference decides and a prefix comes first |
| Drives.ComparatorIsStrictWeakOrder | operatorapi/operator_direct_csi.go:86-99 | the three-key comparator is a strict weak order |
| Drives.DriveBeforeIsTotal | operatorapi/operator_direct_csi.go:86-99 | drives it cannot tell apart agree on node, path and status |
| Drives.OrderedByNodePathStatus | operatorapi/operator_direct_csi.go:86-99 | an ordered list ascends by node, then by path, then by status |
| Drives.GetDirectCSIDriveList | operatorapi/operator_direct_csi.go:65-148 | the list describes a permutation of the drives ordered by the comparator |
| Drives.DescribeDrive | operatorapi/operator_direct_csi.go:100-143 | volumes are counted, and the message is that of the last failing condition |
| Drives.DescribedInFull | operatorapi/operator_direct_csi.go:100-143 | every field of a description: device, node, capacities, the number of volumes, and the star and message exactly if the last condition that is a problem has a message |
| Drives.SilentProblemHidesEarlier | operatorapi/operator_direct_csi.go:107-127 | an earlier problem is not shown when the last one has an empty message |
| Drives.VolumeCountsSum | operatorapi/operator_direct_csi.go:100-106 | with distinct drive names the reported counts add up to the volumes on listed drives |
| ResourceQuota.MergeQuota | operatorapi/resource_quota.go:75-93 | for every iteration order there is one element for each name on both sides, with its own two values, and no other |
| ResourceQuota.MergeIgnoresOrder | operatorapi/resource_quota.go:77-92 | any two iteration orders give the same elements |
| ResourceQuota.GetResourceQuota | operatorapi/resource_quota.go:46-94 | a found quota is merged; a missing one in an existing namespace lists every storage class under its full name, with the largest limit and nothing used; each error has its condition |
| AdminConfig.BuildConfig | restapi/admin_config.go:169-176 | the line is the name and the settings joined by spaces |
| AdminConfig.RenderedText | restapi/admin_config.go:157-176 | the line as text: the name, a colon and the account if there is one, then a space and key=value for each setting |
| AdminConfig.SetConfigWithARNAccountID | restapi/admin_config.go:148-165 | exactly one line is sent, addressed to name:account when an account is given; the answer is handed on, and an error never asks for a restart |
| AdminConfig.UniquelyDecodable | restapi/admin_config.go:157-176 | the line reads back as name, account and settings exactly if no part contains a separator that ends it early |
| AdminConfig.CleanConfigsPrintApart | restapi/admin_config.go:157-176 | different such requests never print alike |
| AdminConfig.TargetRoundTrip | restapi/admin_config.go:161-163 | name and account are recovered from the target exactly if the name has no colon |
| AdminConfig.SpacesCollide | restapi/admin_config.go:169-176 | with a space in the name two different requests print alike |
| Text.SplitInvertsJoin | restapi/admin_config.go:174 | joined parts are recovered by splitting exactly if none contains the separator |
| Text.NumeralInvertsDecimal | operatorapi/operator_tenants_helper.go:266 | decimal numerals can be read back |
| Text.DecimalText | operatorapi/operator_tenants_helper.go:266 | numerals have no leading zero and end with the last digit |
| Sorting.SortSlice | operatorapi/operator_nodes.go:132 | the sort permutes in place and orders by the comparator |

## Left out

- `Listen`, the TLS set-up and the early error returns of `Serve`, and process exit through `Fatalf`: sockets and files. The shutdown model starts with the servers to be started, and a server goroutine ends only through its shutdown.
- The `Server` object itself: the shutdown protocol is modelled on values because its goroutines interleave, so aliasing of the object is not captured. Cancelling the context may make a running `server.Shutdown` fail; that is one of its arbitrary results.
- More than one `Serve` call on one server, and signals lost in the one-element channel.
- HTTP handlers, sessions, the tenant proxy, login and the error translation `prepareError`: plumbing around libraries.
- `getKESConfiguration`: it only calls the two replacement functions; its replica count is assigned when the number does not parse, so custom replicas never take effect.
- `getNodeLabels` and `getDirectCSIVolumesList`: they collect values without a decision.
- `RefreshLicense`, the subnet client and the in-memory license key: calls of a remote service.
- Fields the modelled code never reads: AppRole retry and Vault status (neither has a validation rule), metadata of requests, labels other than the tenant's.
- The nesting of renamed errors in the validators: `ValidateName` applies to an error type that the nested validators never return.
- ShutdownRuns.RunsAreBounded: bounds the moves of the protocol, not the wall-clock time of `server.Shutdown`, which the grace period bounds.
- Drives.BeforeIsTotal: compares characters, where the original compares bytes.
- The names of drive states and conditions, and the constants in device paths: defined in the direct-csi library, which is not part of this model; the states are taken by their names.
