# Verification of the Inari operator's reconcile protocols

This project models the reconcilers of the Inari operator in Dafny and proves
what they keep, run after run, while users edit resources, calls fail and
workers crash.

The operator drives two stores, the Kubernetes API and Keycloak, with no
transaction across them. A reconcile is a sequence of separate remote calls.
Each call can take effect and answer, never arrive, or take effect while its
answer is lost; other workers and users act between any two calls; a worker can
crash anywhere. What keeps this safe is a finalizer written before any external
write, a realm name pinned in `status.realm`, a readiness gate, conflict
detection on resource versions, and idempotent re-runs.

## How it is built

The same protocol appears in two forms that are proved to agree.

- **Step machines** (`Machine`, `Dex`, `Dns`): a program counter with the stale
  locals of one reconcile per worker, a `...Call` function that says which
  remote call comes next, a `...Resume` function that says where an answer
  leads, and `Perform`, which gives the three outcomes of a call. A run is any
  sequence of actions; an action that is not allowed changes nothing.
  Safety is proved here, for all runs.
- **Reconcile loops** (`Reconcilers.Operator`,
  `DexReconciler.ClusterDexReconciler`, `DnsReconciler.DNSRecordReconciler`,
  `Transport.AdminClient`, `Conditions.Status`): classes whose methods follow
  the Go code, with loops, early returns and objects changed in place. A
  schedule decides what others do and how each call ends. `Valid()` says that
  the state is the one the logged machine run leads to, so every safety theorem
  holds of the loops too; on a quiet schedule (no interference, no fault) a
  reconcile is exactly one `...Pass`, a single step on the store, and on a calm
  one (calls may fail) a reconcile that reports success has done all of it.

| file | content |
|---|---|
| `Kube.dfy`, `Conditions.dfy` | keys, faults, the condition list and its three setters |
| `KeycloakServer.dfy` | the server as its fakes define it: unique names, cascading realm delete, unfiltered listings |
| `Machine.dfy` | both Keycloak reconcilers, users, steps and runs |
| `NoOrphan.dfy`, `Pinning.dfy`, `Readiness.dfy`, `ClientTruth.dfy` | safety over every run |
| `Passes.dfy` | undisturbed reconciles: teardown, convergence, settled states |
| `Undisturbed.dfy`, `Reconcilers.dfy` | the Keycloak reconcile loops |
| `KeycloakContents.dfy`, `DexContents.dfy` | what the reconcilers leave behind, field by field, from the specification alone |
| `Steps.dfy`, `Limits.dfy` | reachable states built step by step, and the runs in which a guarantee fails |
| `Tokens.dfy`, `Transport.dfy` | the shared token cache and the retry loop |
| `Dex.dfy`, `DexTruth.dfy`, `DexPasses.dfy`, `DexReconciler.dfy` | ClusterDex |
| `Dns.dfy`, `DnsReconciler.dfy` | DNSRecord |
| `Names.dfy`, `Policy.dfy` | zone membership, child names, image references, policy.csv |

The statements about contents (`KeycloakContents`, `DexContents`, the endpoint
theorems in `Dns`, `Names.TrailingDotIsIgnored`, `Policy.PolicyLines`) are written
in terms of specification fields and literal defaults. They do not mention the
functions the reconcilers compute with, so each of those is held to them.

## Assumptions

- One worker runs per key; reads return the latest object; updates fail on a
  stale resource version; editing a specification raises the generation, and so
  does marking an object for deletion; a deleted object goes when its last
  finalizer goes.
- `Rules` says what users may do. `STRICT` (for `NoOrphans`): realm name, realm
  reference and client id of a live object are not edited, nobody removes the
  finalizer by hand, and names pass on in order. A client target may be taken
  over once the resource that had it is gone; a realm name once its old resource
  is gone and no client resource refers to that one. The last clause is needed:
  without it a client's worker, about to create its client, does so in the new
  owner's realm (`Limits.HandoverOrphansClient`). `RENAMING` also allows editing
  a realm name or client id into any that is not taken: a new one, one the same
  resource had before, or one that its last owner has given up. `STRIPPING`
  allows removing the finalizer from realm resources. `Tidy` rules are those
  between: any of this, but names that are taken stay taken, realm references
  stay (a pin does not follow an edited one, so two resources could come to
  share a client), and nobody strips a client resource. `FREE` allows everything. Each
  theorem names the rules it needs, or takes any.
- Keycloak starts empty and only the operator writes to it; identifiers are not
  reused; the answer 2xx or 404 comes only from the server itself, and a 401 is
  sent before the request takes effect.
- ClusterDex: a single resource; for `NoDexOrphans` its three names are fixed
  and free at the start. SHA-256 is any function to at least eight lower-case
  hexadecimal digits.
- Strings are sequences of byte-sized characters; YAML text is represented by
  the values it encodes.

## Findings

- **A teardown can wait for ever.** ADR 0001 says that a 404 on delete is a
  no-op. `DeleteRealm` does that, but `DeleteClient` fails when the realm is
  missing, because the lookup before it does. Provision a client, delete its
  realm resource, then delete the client: its teardown is wedged
  (`Limits.TeardownGetsWedged`), and stays so for as long as the realm resource
  stays gone (`Pinning.TeardownAfterRealmNeverEnds`). In general, no number of
  reconciles gives back the finalizer of a pinned client while its realm is
  missing in Keycloak (`Pinning.MissingRealmKeepsFinalizer`).
  `Passes.TeardownExactly` says exactly when a teardown completes.
- **A Ready realm need not exist.** The readiness gate looks only at the
  condition. Right after a rename it is one generation old
  (`Limits.StaleReadyPassesTheGate`), and so it is while the realm resource is
  being deleted, with no edit at all (`Limits.DeletingRealmPassesTheGate`);
  either way a client is sent into a realm that is not there. Looking at the
  generation is enough: of the guards on deletion mark and generation, exactly
  those that ask for the current generation are safe (`Limits.SafeGuard`,
  `Readiness.ReadyRealmsExist`). With names fixed, asking that the resource is
  not being deleted is enough too (`Readiness.GateIsSafe`).
- **A Ready client need not exist either.** Deleting its realm resource and
  creating it again leaves the client resource Ready at its generation, and the
  realm Ready too, without the client (`Limits.RecreatedRealmHasLostItsClient`).
  Under tidy rules, with realms and clients renamed in place and realm finalizers
  stripped, nothing else can do this: if the realm has been there ever since the
  worker was last told that its client is, the client is there as specified
  (`ClientTruth.ReadyClientsExist`). That no two resources share a client is
  needed: a second one for the same client, with other settings, overwrites it
  under the Ready first one (`Limits.SharedClientIsOverwritten`).
- **Editing a name leaves the old object behind**: the old realm
  (`Limits.RenamedRealmIsOrphaned`); the old Keycloak client, after an edit of
  `spec.clientID` (`Limits.EditedClientIDOrphansClient`) or, before the pin is
  written, of `spec.realmRef` (`Limits.EditedRealmRefOrphansClient`); the old
  Secret, after an edit of `spec.secretName` (`Passes.EditedNamesStayBehind`,
  which says exactly what survives even the deletion of the edited resource);
  and of a ClusterDex the old Application
  (`DexPasses.RenamingAbandonsTheApplication`) or, after an edit of the ArgoCD
  namespace, all three children (`DexPasses.MovingAbandonsAllChildren`).
- **An unpinned client is forgotten** when the realm resource loses its
  finalizer by hand (`Limits.StrippedRealmOrphansUnpinnedClient`). A client
  whose teardown resolved a realm, as a pinned one always does, is not
  (`NoOrphan.ClientGoesFirst`).
- **A 401 can throw away a newer token.** Invalidation does not look at which
  token was refused (`Tokens.NewerTokenCanBeDropped`). It drops only the refused
  one exactly if no token was fetched since that one was
  (`Tokens.InvalidationDrops`); the retry is always fresher than the attempt
  before it.
- **Extra policy lines can look like group lines**
  (`Policy.ExtraLinesCanImitateGroups`). The whole text decodes to exactly the
  mapped groups if and only if no extra line does (`Policy.PolicyDecodesIff`).
- **A public client's Secret can hold an old secret.** Writing a Secret merges
  keys: the key `client-secret` of a client switched to public stays
  (`Passes.SwitchToPublicKeepsSecret`, `Passes.PublicPassLeavesSecretKey`).

## Model

| member | source | states |
|---|---|---|
| NoOrphan.NoOrphans | internal/controller/keycloakclient_controller.go:54-142 | in every reachable state, with client targets and realm names passing between keys once they are vacated, each Keycloak realm has a KeycloakRealm with the finalizer that names it, and each client a KeycloakClient with the finalizer whose teardown would aim at exactly that client |
| NoOrphan.RunKeeps | internal/controller/keycloakrealm_controller.go:41-93 | the invariants behind it: under tidy rules what workers and resources rely on, and with names fixed and no finalizer stripped the two-store cover, survive every step of both workers, every user action, fault and crash |
| NoOrphan.ClientGoesFirst | internal/controller/keycloakclient_controller.go:77-103 | under tidy rules, so with realm finalizers stripped and realm names and client ids edited, the step that releases a client resource is its worker's last, holds the current object, and leaves no such client in the realm the teardown resolved, which is the pinned one if there is one |
| NoOrphan.ReleaseIsClean | internal/controller/common.go:46-60 | the same for one step: cleanup has succeeded before the finalizer goes |
| NoOrphan.ListFinds | internal/keycloak/client.go:197-210 | exact matching finds the stored client, or its absence, whatever else the listing contains; a missing realm is a 404 |
| NoOrphan.DeleteClears | internal/keycloak/client.go:164-176 | a delete by identifier leaves no such client, whether it answers 204 or 404 |
| Pinning.OnlyReadyRealms | internal/controller/keycloakclient_controller.go:117-142 | under any edits, a client is only created, changed or pinned in a realm whose name a realm resource carried while Ready |
| Pinning.ReadinessGate | internal/controller/keycloakclient_controller.go:54-75 | provisioning starts only into the pinned realm or, unpinned, into the effective name of a realm resource that exists and is Ready at that read |
| Pinning.ReadyNamesWereReady | internal/controller/keycloakclient_controller.go:74-75 | every name in that history was the effective name of a Ready realm resource in some earlier state of the run |
| Pinning.PinIsForGood | internal/controller/keycloakclient_controller.go:178-186 | once set, status.realm stays the same through every continuation of a run in which the resource exists, whatever users do |
| Pinning.MissingRealmKeepsFinalizer | internal/keycloak/client.go:164-176 | under any edits and with realm finalizers stripped: from any reachable state, a pinned client resource whose worker has not cleaned up keeps its finalizer through every continuation during which the pinned realm is missing in Keycloak, wherever its worker stands |
| Pinning.TeardownAfterRealmNeverEnds | internal/keycloak/client.go:164-176 | in strict runs, where the realm goes with its resource: a deleting pinned client whose realm resource is gone and whose worker is idle keeps its finalizer in every continuation during which that resource stays gone |
| Readiness.ReadyRealmsExist | internal/controller/keycloakrealm_controller.go:75-94 | in every reachable state, with realms renamed into any name that is not taken, a realm resource that is Ready at its current generation is not being deleted and has the realm its specification names, or else its tenant's, in Keycloak; with names fixed, Ready and not being deleted is enough |
| Readiness.GateIsSafe | internal/controller/keycloakclient_controller.go:64-75 | an unpinned client is sent into an existing realm whenever the realm resource read at the gate is Ready at its current generation or, with names fixed, not being deleted |
| ClientTruth.ReadyClientsExist | internal/controller/keycloakclient_controller.go:131-186 | in every run under tidy rules, with realm names and client ids edited and realm finalizers stripped, a client resource Ready at its generation is live and pinned, its status gives the client id and Secret its specification asks for, and an earlier action of the run told its worker that the client is in the pinned realm; if the realm exists in every state since, the client does, with client type, service accounts, redirect URIs and standard flow as the present specification gives them |
| ClientTruth.WatchRunKeeps | internal/controller/keycloakclient_controller.go:41-193 | the invariant behind it, over every run under tidy rules: what each Ready mark, each worker past its answer and each identifier held by a worker is worth, through every step, edit, fault and crash |
| Limits.SafeGuard | internal/controller/keycloakclient_controller.go:72-72 | over all reachable states, a guard on deletion mark and generation of a Ready realm resource is safe if and only if it asks for the current generation, whatever the deletion mark |
| Limits.DeletingRealmPassesTheGate | internal/controller/keycloakclient_controller.go:72-72 | for any names and rules: with no edit, a worker is about to provision into a realm its resource's worker has already deleted, on a Ready mark one generation old |
| Limits.TeardownGetsWedged | internal/controller/keycloakclient_controller.go:77-103 | for any names: provision and pin, delete the realm resource to the end, delete the client resource, and its teardown is wedged |
| Limits.RecreatedRealmHasLostItsClient | internal/controller/keycloakrealm_controller.go:46-61 | for any names, under the strict rules: after the realm resource is deleted to the end and created again, realm and client resource are Ready at their generations and the client is not in Keycloak |
| Limits.SharedClientIsOverwritten | internal/controller/keycloakclient_controller.go:131-136 | for any names: with a second resource for the same client, the first is Ready at its generation, its realm exists, and the client is not as it asks |
| Limits.HandoverOrphansClient | internal/controller/keycloakclient_controller.go:131-136 | for any names: a realm name taken over while a client still refers to the old owner ends with a client nothing answers for |
| Passes.TeardownExactly | internal/controller/keycloakclient_controller.go:77-103 | an undisturbed teardown releases the resource if and only if no realm is known or the known one exists; then client and secret are gone and everything else on the server, every realm resource and every other client resource is as it was; otherwise it changes nothing |
| Passes.PinnedTeardownIgnoresRealms | internal/controller/keycloakclient_controller.go:58-72 | with status.realm set, a teardown does not depend on any realm resource |
| Passes.Converges | internal/controller/keycloakclient_controller.go:105-186 | two or more undisturbed passes of each reconciler settle a live pair, and any later pass changes nothing, if and only if the client is not pinned to some other, missing realm; otherwise it reports a failure every time |
| Passes.EnsuredClientMeans | internal/keycloak/client.go:122-160 | ensuring gives exactly one client with the wanted id and fields, keeps its identifier, leaves all other clients and realms alone, and is idempotent |
| Passes.RealmConverges | internal/keycloak/client.go:88-109 | two or more realm passes settle a live realm and leave its clients, every other realm, every other resource and all secrets exactly as they were |
| Passes.EnsuredRealmMeans | internal/keycloak/client.go:88-109 | the realm has the wanted fields and keeps its clients, no other realm differs, and ensuring again changes nothing |
| Passes.PublicPassLeavesSecretKey | internal/controller/keycloakclient_controller.go:149-176 | after a successful pass over a public client, the key client-secret is in its Secret if and only if it was there before, with the same value |
| Passes.SwitchToPublicKeepsSecret | internal/controller/keycloakclient_controller.go:149-176 | a settled confidential client switched to public settles again with its old secret still in the Secret |
| Passes.EditedNamesStayBehind | internal/controller/keycloakclient_controller.go:77-103 | a settled client is given any specification, reconciled any number of times, deleted and reconciled: its old Keycloak client is left, unchanged, if and only if the edit changed the client id, and its old Secret if and only if the edit moved the Secret |
| Passes.ClientPassesSpareOthers | internal/controller/keycloakclient_controller.go:41-193 | any number of passes, a teardown included, leave every client with another id, every other Secret and the set of realms as they were, and keep specification and pin |
| Passes.SettledClientStays | internal/controller/keycloakclient_controller.go:105-186 | a pass over a settled client leaves both stores exactly as they are |
| KeycloakContents.RealmIsProvided | internal/controller/keycloakrealm_controller.go:41-94 | two or more passes over a live realm resource leave the realm spec.realm names, or else the tenant's, with the specified fields and the clients it had, status and finalizer set, and every other realm as it was |
| KeycloakContents.RealmIsRemoved | internal/controller/keycloakrealm_controller.go:41-61 | a pass over a deleting realm resource removes exactly that realm and the finalizer |
| KeycloakContents.ClientIsProvided | internal/controller/keycloakclient_controller.go:49-186 | two or more passes of each reconciler put an unpinned client into the realm its resource refers to and a pinned one into the pinned realm if that exists, under spec.clientID or else the resource's name, with every setting, the Secret's client id, issuer and secret, and the status as specified; otherwise the failure is reported |
| KeycloakContents.ClientIsRemoved | internal/controller/keycloakclient_controller.go:49-103 | a pass over a deleting client resource removes that client from the known realm, that Secret and the finalizer, and nothing else; a missing realm makes it fail without effect |
| KeycloakContents.ClientWaits | internal/controller/keycloakclient_controller.go:117-142 | failure and 30 seconds without a realm resource, waiting and 15 seconds while it is not Ready, an error if the realm itself is missing, and nothing but the mark changes |
| KeycloakContents.ClientFailuresAreReported | internal/controller/keycloakclient_controller.go:131-176 | whichever call of the provisioning stretch fails, the next call records the failure for the generation read |
| KeycloakContents.RealmFailuresAreReported | internal/controller/keycloakrealm_controller.go:80-85 | the same for realms |
| KeycloakContents.TeardownStopsAtFailure | internal/controller/keycloakclient_controller.go:78-97 | a failing call ends the teardown and leaves the resource as it is |
| KeycloakContents.VanishedClientStopsTeardown | internal/keycloak/client.go:164-176 | a client that has gone since the lookup makes the delete a failure |
| KeycloakContents.SecretsAreWrittenAsTenant | internal/controller/common.go:66-78 | the tenant's Secret is written or deleted only after an answered call that takes on the specified service account |
| Reconcilers.Operator.ReconcileClient | internal/controller/keycloakclient_controller.go:41-193 | the loop is a run of the machine under any interference; with no other writer, success means that the whole client pass was done; undisturbed it is one pass with the promised result, and finishing over a live resource means that the client is in the known realm with every setting, Secret and status as specified; a settled client causes no Keycloak write; under the strict rules nothing is orphaned afterwards |
| Reconcilers.Operator.ReconcileRealm | internal/controller/keycloakrealm_controller.go:33-101 | the same for the realm loop: with no other writer, success over a live resource means that the realm the specification names, or else the tenant's, is there as specified |
| Reconcilers.Operator.EnsureClient | internal/keycloak/client.go:122-160 | with no competing writer, on success the managed fields are set, the secret belongs to the identifier and created means it was absent; on failure they are set or untouched; up to date means no write |
| Reconcilers.Operator.EnsureRealm | internal/keycloak/client.go:88-109 | with no competing writer, on success the realm has the wanted fields and created means it was absent; on failure it is set or untouched; up to date means no write |
| Reconcilers.Operator.DeleteClient | internal/keycloak/client.go:164-176 | on success the client is gone, on failure gone or untouched; a missing realm is always a failure |
| Reconcilers.Operator.FindClient | internal/keycloak/client.go:197-210 | reports the stored client with exactly this id, or that there is none |
| Reconcilers.Operator.ClientDrifted | internal/keycloak/client.go:180-195 | true if and only if the two representations differ in a managed field |
| Reconcilers.Operator.LoadClient | internal/controller/keycloakclient_controller.go:41-75 | reads the resource and resolves the realm a teardown would aim at - the pinned one, or else the one the referenced resource names, or else its tenant's - and whether it is Ready |
| Reconcilers.Operator.WriteSecret | internal/controller/keycloakclient_controller.go:150-176 | with no other writer, on success the tenant's Secret carries the client's data and label and keeps its other keys |
| Reconcilers.Operator.FinalizeClient | internal/controller/keycloakclient_controller.go:77-103 | with no other writer, success means the whole teardown pass; undisturbed, exactly that pass, and an error if and only if the known realm is missing |
| Reconcilers.Operator.ProvisionClient | internal/controller/keycloakclient_controller.go:117-142 | the gate, its waiting times and the provisioning pass |
| Reconcilers.Operator.PublishClient | internal/controller/keycloakclient_controller.go:144-186 | with no other writer, success means that secret and Ready status are written; undisturbed it succeeds, also if the object is gone |
| Reconcilers.Operator.FinalizeRealm | internal/controller/keycloakrealm_controller.go:46-61 | with no other writer, whatever calls fail, the finalizer is gone only if the realm is; success means the whole pass |
| Limits.RenamedRealmIsOrphaned | internal/controller/keycloakrealm_controller.go:41-44 | for any names: renaming in place leaves the old realm in Keycloak with no resource, also after reconciling |
| Limits.EditedClientIDOrphansClient | internal/controller/keycloakclient_controller.go:49-52 | for any names: editing the client id of a provisioned client leaves the old one in Keycloak with no resource that answers for it |
| Limits.EditedRealmRefOrphansClient | internal/controller/keycloakclient_controller.go:58-72 | for any names: so does editing the realm reference between the creation of the client and the pin, to a resource that is not there |
| Limits.StaleReadyPassesTheGate | internal/controller/keycloakclient_controller.go:72-72 | for any names: after a rename a worker is about to provision into a realm that does not exist |
| Limits.StrippedRealmOrphansUnpinnedClient | internal/controller/keycloakclient_controller.go:77-83 | for any names: both resources gone, the client still in Keycloak |
| KeycloakServer.HandleKeepsWellFormed | internal/controller/suite_test.go:113-188 | every request keeps client ids unique and identifiers distinct |
| KeycloakServer.ListingIsExact | internal/keycloak/client_test.go:143-149 | the first exact match of an unfiltered listing is the stored client, if any |
| Tokens.RetryUsesFresherToken | internal/keycloak/client.go:279-299 | in every interleaving of callers, a second attempt uses a token fetched after the first attempt's invalidation, and there is no third |
| Tokens.OnlyUnauthorizedRetries | internal/keycloak/client.go:279-299 | a caller drops the cache and tries again if and only if its first attempt was answered 401 |
| Tokens.ServedTokenIsCurrent | internal/keycloak/client.go:235-277 | a cached token is served, without a request, exactly while it has more than ten seconds to live, and is then the last one fetched since the last invalidation; a fetched one is kept for the lifetime granted or else a minute; a failed fetch leaves the cache as it was |
| Tokens.NewerTokenCanBeDropped | internal/keycloak/client.go:342-347 | for any two tokens there is a run in which a caller whose old token is refused drops the newer one |
| Tokens.InvalidationDrops | internal/keycloak/client.go:342-347 | in every run, an invalidation drops only the refused token if and only if nothing is cached or no token was fetched since that one was; otherwise it drops a newer one |
| Transport.AdminClient.Do | internal/keycloak/client.go:279-299 | at most two attempts with the same request, at most one of which takes effect; success if and only if the last status is 2xx, not-found if and only if it is 404, and both are the server's own answers; the whole call is one of the machine's three outcomes |
| Transport.AdminClient.DoOnce | internal/keycloak/client.go:304-339 | one request with the current token, applied or not, and the server's own answer on 2xx and 404 |
| Transport.AdminClient.GetToken | internal/keycloak/client.go:235-277 | the cache and token the specification gives; never an empty token |
| DexTruth.ReadyTellsTheTruth | internal/controller/clusterdex_controller.go:77-136 | in every reachable state, under any edits and failures: Ready at the current generation means that the resource is not being deleted and all three children equal the rendering of the current spec, or none exists if it is disabled |
| DexContents.ReadyMeans | internal/controller/clusterdex_application.go:55-352 | in every reachable state, under any edits and failures: Ready at the current generation means that status, Application, argocd-cm and argocd-rbac-cm hold what the specification's fields say or their literal defaults: names, issuer, project, chart version, image parts, route, secret references, tenant label, and a policy whose lines are the administrators', the readers' and the extra ones in order and decode to the groups; or that none of the three exists if it is switched off |
| DexTruth.RunKeeps | internal/controller/clusterdex_controller.go:47-137 | the invariant behind it: what the worker has done so far, and how current its copy is |
| DexTruth.NoDexOrphans | internal/controller/clusterdex_controller.go:55-84 | names fixed: in every run any child implies that the resource exists with its finalizer, and no other object is touched |
| DexPasses.CutOffCleanupResumes | internal/controller/clusterdex_controller.go:219-237 | a cleanup cut off anywhere any number of times reaches the same final store as one that was not |
| DexPasses.WrittenMeans | internal/controller/clusterdex_controller.go:170-193 | after applyChild the child has the wanted content and tenant label; other labels, the rest of the child and all other objects are untouched; writing it again does nothing |
| DexPasses.DexConverges | internal/controller/clusterdex_controller.go:47-137 | two or more undisturbed passes settle a live resource, and any later pass writes nothing, if and only if it is disabled or its secrets are there and it renders; otherwise it reports a failure |
| DexContents.DexIsProvided | internal/controller/clusterdex_controller.go:77-136 | two or more passes provide exactly that if the resource is switched off, or both Secrets are there with their keys, by default in its own namespace, both references are given, the image has a tag and no digest and every group is one line; otherwise the failure is reported; no other object is touched |
| DexContents.DexIsRemoved | internal/controller/clusterdex_controller.go:55-67 | a pass over a deleting resource removes the three children, by name, and the finalizer, and nothing else |
| DexContents.DexWaits | internal/controller/clusterdex_controller.go:86-116 | 30 seconds if and only if a Secret, a key or a reference is missing; an error if and only if all are there and it cannot be rendered |
| DexContents.DexFailuresAreReported | internal/controller/clusterdex_controller.go:122-128 | whichever call about a child fails, the next call records the failure for the generation read |
| DexContents.ChildrenAreTouchedAsTenant | internal/controller/clusterdex_controller.go:118-121 | children are written or deleted only after an answered call that takes on the specified service account |
| DexPasses.SettledDexStays | internal/controller/clusterdex_controller.go:197-214 | a pass over a settled resource leaves the store as it is |
| DexPasses.PassesKeepOthers | internal/controller/clusterdex_controller.go:219-237 | any number of passes leaves every object alone that is none of the current spec's three children |
| DexPasses.RenamingAbandonsTheApplication | internal/controller/clusterdex_application.go:78-80 | after a rename the old Application stays, however often the renamed resource is reconciled |
| DexPasses.MovingAbandonsAllChildren | internal/controller/clusterdex_application.go:91-96 | after a move to another ArgoCD namespace all three old children stay unchanged, however often the resource is reconciled |
| DexPasses.EditsAbandonChildren | internal/controller/clusterdex_controller.go:219-237 | after any edit, each old child whose name is none of the new three stays unchanged, however often the resource is reconciled |
| DexReconciler.ClusterDexReconciler.Reconcile | internal/controller/clusterdex_controller.go:47-137 | the loop is a run of the machine, Ready tells the truth after it under any interference, with no other writer success means that the whole pass was done, undisturbed it is one pass with the promised result, and a settled resource causes no write |
| DexReconciler.ClusterDexReconciler.ApplyChild | internal/controller/clusterdex_controller.go:170-193 | the child object is overwritten by the read and mutated in place, and still the stored child becomes the rendered one, on create and on update |
| DexReconciler.ClusterDexReconciler.ApplyEach | internal/controller/clusterdex_controller.go:122-129 | the loop over the children writes all three, or stops at the first failure |
| DexReconciler.ClusterDexReconciler.CheckSecret | internal/controller/clusterdex_controller.go:141-157 | passes if and only if the Secret exists with all keys, by default in the resource's own namespace; otherwise waits and records the failure |
| DexReconciler.ClusterDexReconciler.Ready | internal/controller/clusterdex_controller.go:197-214 | records readiness, and writes nothing if it is recorded already |
| DexReconciler.ClusterDexReconciler.DeleteChildren | internal/controller/clusterdex_controller.go:219-237 | afterwards none of the three children exists and every other object is as it was |
| DexReconciler.ClusterDexReconciler.RenderApplication | internal/controller/clusterdex_application.go:239-272 | renders the Application, or fails if and only if the configuration reference is missing or the image has no tag or a digest |
| DexReconciler.ClusterDexReconciler.RenderConfigMaps | internal/controller/clusterdex_application.go:277-352 | renders both ConfigMaps, or fails if and only if the client secret reference is missing or a group spans lines |
| Dns.EndpointsAreCopies | internal/controller/dns_controller.go:126-176 | every endpoint in every reachable state says, entry by entry and field by field, what some past record said, and every name stored in it lies inside the zone name read in the same run |
| Dns.EndpointOnlyRendered | internal/controller/dns_controller.go:137-145 | a worker step changes the endpoint only into the rendering of a record all of whose entries are inside the zone it read |
| Dns.ReadyRecordsAreShown | internal/controller/dns_controller.go:182-188 | Ready at the current generation means that the record is not being deleted and owns an endpoint with name, type, targets and TTL of exactly its entries, in order |
| Dns.RenderingDecides | internal/controller/dns_controller.go:162-174 | a rendering determines the entries and their order |
| DnsReconciler.PassMeans | internal/controller/dns_controller.go:100-192 | an undisturbed pass shows an acceptable record and marks it Ready, adopting an endpoint that an earlier record of the same name left; any entry outside the zone, or no zone, leaves the endpoint as it was |
| DnsReconciler.RecordIsShown | internal/controller/dns_controller.go:126-191 | in terms of zone name and entries: shown field by field, owned, labelled and Ready if and only if every name is in the zone; 30 seconds if and only if there is no zone; on failure the endpoint stays |
| DnsReconciler.RecordIsReleased | internal/controller/dns_controller.go:108-116 | a deleted record is let go at once and its endpoint left alone |
| DnsReconciler.DNSRecordReconciler.Reconcile | internal/controller/dns_controller.go:100-192 | the loop is a run of the machine; the endpoint is a copy of what some run found inside the zone; with no other writer, success means that the whole pass was done unless the record is rejected; undisturbed it is one pass with the promised result |
| DnsReconciler.DNSRecordReconciler.FindOutside | internal/controller/dns_controller.go:137-145 | finds an entry outside the zone if and only if there is one |
| DnsReconciler.DNSRecordReconciler.RenderEntries | internal/controller/dns_controller.go:162-174 | the loops render all entries in order, each field under its own key |
| Names.InZoneIffLabelSuffix | internal/controller/dns_controller.go:201-205 | a name is in a zone if and only if the zone's labels end the name's labels, for all strings (section 3.1 of RFC 1034) |
| Names.TrailingDotIsIgnored | internal/controller/dns_controller.go:201-205 | with the name, the zone, both or neither written with a trailing dot, membership is the labels of the zone ending the labels of the name, each split at every dot |
| Names.SecondDotCounts | internal/controller/dns_controller.go:201-205 | a second trailing dot is not ignored: such a name is in no zone but the root, such a zone holds no name without it, and two against two match again |
| Names.ZonesNest | internal/controller/dns_controller.go:201-205 | membership is transitive, and two zones sharing a name are nested |
| Names.TenantChildNameFits | internal/controller/common.go:85-95 | at most 63 characters; the identity on short inputs; long ones are cut after a character that is neither hyphen nor dot |
| Names.TenantChildNameIsValid | internal/controller/common.go:85-95 | valid parts give a valid name, and labels give a single label (section 2.1 of RFC 1123) |
| Names.DefaultIssuerHost | internal/controller/clusterdex_application.go:55-57 | for a valid cluster id the issuer's host starts with the Application's name as one whole label |
| Names.SplitImageRefSucceeds | internal/controller/clusterdex_application.go:110-119 | succeeds if and only if there is no digest and some colon follows every slash; the parts rebuild the reference |
| Names.SplitImageRefRoundTrip | internal/controller/clusterdex_application.go:110-119 | joining and splitting gives back any repository and plain tag |
| Policy.RenderPolicy | internal/controller/clusterdex_application.go:294-308 | fails if and only if some group is not a single line, naming the first such group |
| Policy.PolicyStartsWithGroups | internal/controller/clusterdex_application.go:299-308 | the first lines are exactly the group lines in order and decode to both lists, whatever the extra lines hold |
| Policy.PolicyLines | internal/controller/clusterdex_application.go:294-308 | the whole text line by line: a line per administrator and per reader in order, then every line of every extra entry, whatever it says, less trailing line feeds |
| Policy.PolicyIsUnambiguous | internal/controller/clusterdex_application.go:299-308 | without extra lines the text determines both lists |
| Policy.ExtraLinesCanImitateGroups | internal/controller/clusterdex_application.go:306-308 | with extra lines it does not |
| Policy.PolicyDecodesIff | internal/controller/clusterdex_application.go:299-308 | for each role, decoding the whole text gives back exactly its groups if and only if no line of any extra entry is a group line of that role |
| Conditions.LastCallDecides | api/v1alpha1/shared_types.go:49-95 | over any calls from an empty list: kinds unique, Ready=True never beside Failed or Reconciling, readiness for a generation if and only if the last call was SetReady at it, and the last failure or wait recorded with its generation |
| Conditions.FailedAndReconcilingCoexist | api/v1alpha1/shared_types.go:62-95 | there is a list, left by two calls, in which Failed and Reconciling stand side by side |
| Conditions.Status.SetReady | api/v1alpha1/shared_types.go:49-59 | the list records Ready=True and no other of the three kinds; other conditions untouched |
| Conditions.Status.SetReconciling | api/v1alpha1/shared_types.go:62-77 | the list records Reconciling and Ready=False, and keeps a Failed entry |
| Conditions.Status.SetFailed | api/v1alpha1/shared_types.go:80-95 | the list records Failed and Ready=False, and keeps a Reconciling entry |

## Left out

- The CertIssuer, ArgoProject, TenantNamespace and DNSZone controllers: the same finalizer and apply pattern with simpler bodies.
- HTTP, JSON, URL escaping and YAML: requests are values, and other error statuses (such as 5xx) are refusals.
- Flags, manager setup, logging, events, RBAC, charts and the constant Helm values.
- A Keycloak client that is not configured: the reconcilers are modelled with one.
- Stale caches and leader failover: reads return the latest object.
- Realms and clients that exist in Keycloak before the operator: a realm of the same name would be adopted, and deleted with the resource.
- A PUT that renames a client: the operator never sends one.
- Regenerated client secrets: the secret is a function of the identifier.
- The issuer URL in a realm's status, a function of its name; the impersonated user is reduced to the service account.
- CreateOrUpdate of the tenant's Secret is one call, so a conflict inside it is a refusal.
- Status conditions inside the step machines are reduced to the last setter call; `Conditions.LastCallDecides` shows that nothing else matters for Ready.
- Several ClusterDex resources in one ArgoCD namespace, and children written by others: only labels and annotations of others change.
- Names.TenantChildNameIsValid: says nothing about different inputs getting different names; joining with hyphens is not injective.
- Transport.AdminClient.Do: time-outs and context cancellation are one of the ways a call fails.
