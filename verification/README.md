# Rancher, modelled in Dafny

This project models the parts of Rancher 2.x that hold real algorithms over state, and proves what they are for. Most of
Rancher talks to Kubernetes; here every lister, client, cache and remote provider is a map, a parameter or a function that
the proofs know nothing about, and every failure such a call can have is a case of the model.

- **Who owns a user cluster.** Every Rancher server learns its peers (`PeerManager`), hashes each cluster's UID onto the sorted
  peer list (`Sharding`, `UserControllers`) and runs a per-cluster record as owner or follower (`ClusterManager`, `RecordRace`).
  `Fleet` puts all servers together as one state machine. Its main result, `Fleet.OwnershipConverges`, is about every run.
- **Catalog sync** (`CatalogModel`, `CatalogStore`, `CatalogSync`). A sync skips charts whose recorded digests are unchanged.
  `CatalogSync.MirrorsAfterEverySync` and `CatalogSync.IncrementalIsRebuild` say that this is as good as a full rebuild.
- **Permissions** (`Rbac`): bindings flattened into pairs and asked through wildcards decide as the bindings themselves do.
- **Auth refresh** (`AuthRefresh`) and **tokens** (`Tokens`): which tokens die, and which token a presented string names.
- **Cluster servers** (`RouterFactory`): double-checked creation, over every interleaving.
- **Reconcilers and decisions**: containers on a node (`Containers`), default roles (`RoleBuilder`, `RoleReconcile`), the right to
  grant roles (`RoleTargets`), monitoring answers (`AppAnswers`).
- **Two compact cores**: HTTP Digest (`Digest`, after RFC 2617) and the step of a monitoring query (`Interval`).

How to read the models. A Go map that is ranged over is a loop that takes any remaining key. An object that the source updates
in place is a class, and its methods are tied by their contracts to functions on values, about which the theorems are. Concurrent
code is a state machine whose steps are the single reads, writes and lock operations of the source. CRC32, MD5, case folding,
the regular expression of the templates, the comparison of a container with its process, and the answers of auth providers are
function parameters. A request that may fail for outside reasons fails arbitrarily in the model; ghost flags (`faulted`, `refused`)
record it, so that contracts can say an operation fails only for a reason.

Where the code and its own comments or its purpose part, the model follows the code:

- The last rounding step begins at six weeks, while the comment beside it says two years (`Interval.RoundMonotone`).
- A chart that lists one version twice can hide the removal of another (`CatalogModel.ChangeMissedExactly`).
- Granting is decided by the number of bindings and not by the set of roles (`RoleTargets.DepartsFromRule`).
- A container with both name labels is removed as its own repeat, or may make the run fail (`Containers.Docker.RunProcess`).
- `Start` reads a cluster again by name. If the cache has lost it by then, or has another one of that name, a record in the wrong
  role stays, and the other one starts in its role (`UserControllers.WrongRoleExactly`).
- Version objects are named after template and version with a dash between them, so versions of two charts can share a name. When
  both charts are new the second version is not stored, yet recorded (`CatalogSync.Manager.FirstSync`).
- What overwriting answers gives can depend on the iteration order of a map (`AppAnswers.OneResultExactly`), and a template that
  does not parse can take every answer out (`AppAnswers.UnparsedTakesAll`).
- A role template that differs only in Builtin is left as it is, and one that is right is rewritten on every run
  (`RoleReconcile.TemplatesConverge`).
- A time to live whose nanoseconds do not fit 64 bits wraps around (`Tokens.ExpiryExact`).
- The cluster-role half of the granting decision looks its roles up among the project roles, so a cluster owner passes with any
  missing role (`RoleTargets.DepartsFromClusterRule`).

## Model

| member | source | states |
|---|---|---|
| `Sharding.ProductFits` | pkg/api/controllers/usercontrollers/usercontroller.go:139-147 | for every checksum and fewer than 2^31 peers the 64-bit product does not overflow, so the quotient is the mathematical one |
| `Sharding.ScaledInRange` | pkg/api/controllers/usercontrollers/usercontroller.go:139-147 | the quotient is a valid index for every non-empty peer list |
| `Sharding.ScaledMonotone` | pkg/api/controllers/usercontrollers/usercontroller.go:139-147 | a larger checksum never gets a smaller index |
| `Sharding.ScaledInterval` | pkg/api/controllers/usercontrollers/usercontroller.go:139-147 | a peer's share below the largest checksum is exactly one interval, with its two ends given |
| `Sharding.TopChecksum` | pkg/api/controllers/usercontrollers/usercontroller.go:139-147 | the largest checksum, which is folded onto its neighbour, falls to the last peer and to no other |
| `Sharding.ShareSize` | pkg/api/controllers/usercontrollers/usercontroller.go:139-147 | every peer answers for (2^32-1)/n or one more of the 2^32 checksums |
| `Sharding.SharesBalanced` | pkg/api/controllers/usercontrollers/usercontroller.go:139-147 | any two peers' shares differ by at most one checksum |
| `PeerManagement.RunKeepsPeers` | pkg/tunnelserver/peermanager.go:95-172 | over every run of endpoint updates, elections and listener changes the tunnel server's peers are the manager's, the server's own ID is never among them and leadership never reverts |
| `PeerManagement.LatestEndpointsWin` | pkg/tunnelserver/peermanager.go:95-122 | after an update, whatever else follows, peers, readiness and registrations are those of the latest endpoints |
| `PeerManagement.TunnelServer.AddPeer` | pkg/tunnelserver/peermanager.go:112-117 | a peer is registered unless the server has no ID or no token |
| `PeerManagement.TunnelServer.RemovePeer` | pkg/tunnelserver/peermanager.go:112-117 | a peer is unregistered |
| `PeerManagement.PeerManager.constructor` | pkg/tunnelserver/peermanager.go:39-68 | a new manager has no peers, is neither ready nor leader and is consistent |
| `PeerManagement.PeerManager.AddRemovePeers` | pkg/tunnelserver/peermanager.go:95-122 | the new state is the step for the endpoints, and every listener gets exactly one message that describes it |
| `PeerManagement.PeerManager.CollectAddresses` | pkg/tunnelserver/peermanager.go:99-110 | the new peers are all other addresses, and the server is ready iff its own address is listed |
| `PeerManagement.PeerManager.Notify` | pkg/tunnelserver/peermanager.go:124-138 | the message carries the current leader flag, readiness and every peer ID once, and goes to each listener once |
| `PeerManagement.PeerManager.AddListener` | pkg/tunnelserver/peermanager.go:140-144 | the listener is added and nothing is sent |
| `PeerManagement.PeerManager.RemoveListener` | pkg/tunnelserver/peermanager.go:146-154 | the listener is removed and gets a last message that is not ready and has no peers |
| `PeerManagement.PeerManager.Leader` | pkg/tunnelserver/peermanager.go:162-172 | becoming leader is announced once, with the state after it; a second call changes and sends nothing |
| `ClusterManagement.Start` | pkg/clustermanager/manager.go:74-85 | success leaves a started record with the requested role and the cached cluster's endpoint, token, CA and auth-endpoint flag; success or failure, no started record is left in the wrong role and no other record is added or altered |
| `ClusterManagement.UserContext` | pkg/clustermanager/manager.go:384-400 | reading never starts controllers, leaves every started record it does not drop unchanged, and does not touch a record whose four fields are current |
| `ClusterManagement.Run` | pkg/clustermanager/manager.go:64-131 | over every run of starts, stops and reads each record stays under the UID of its own cluster |
| `ClusterManagement.RolesWereAskedFor` | pkg/clustermanager/manager.go:64-171 | after any run a started record was there before, or some start of the run asked for this cluster in the role it has |
| `ClusterManagement.Manager.constructor` | pkg/clustermanager/manager.go:54-62 | a new manager has no records |
| `ClusterManagement.Manager.StopCluster` | pkg/clustermanager/manager.go:64-72 | the record is dropped and cancelled; every record ever made is stored and running, or cancelled |
| `ClusterManagement.Manager.MarkUnavailable` | pkg/clustermanager/manager.go:97-105 | the record of the cluster the API returned is stopped |
| `ClusterManagement.Manager.Abandon` | pkg/clustermanager/manager.go:144-150 | a record whose launch failed is dropped and cancelled, and no other record changes |
| `ClusterManagement.Manager.Launched` | pkg/clustermanager/manager.go:144-153 | a record whose launch succeeded is started in the requested role, and no other record changes |
| `ClusterManagement.Manager.StartControllers` | pkg/clustermanager/manager.go:133-155 | the outcome and the table are those of the specification: nothing to do, a dead API server, started already, a failed launch that drops the record, or a launch in the requested role |
| `ClusterManagement.Manager.Obtain` | pkg/clustermanager/manager.go:107-131 | an unchanged record is reused; a changed one is stopped and replaced |
| `ClusterManagement.Manager.Store` | pkg/clustermanager/manager.go:337-356 | a new record is stored under its cluster's UID, not started |
| `ClusterManagement.Manager.Create` | pkg/clustermanager/manager.go:107-131 | a record is made only for a reachable cluster, and dropped again when its controllers cannot be started |
| `ClusterManagement.Manager.StartCluster` | pkg/clustermanager/manager.go:74-85 | the method refines `Start` |
| `ClusterManagement.Manager.ReadContext` | pkg/clustermanager/manager.go:384-400 | the method refines `UserContext` |
| `RecordRace.StableStays` | pkg/clustermanager/manager.go:133-155 | no step of any call changes the flags of a record that is decided |
| `RecordRace.StepKeepsInv` | pkg/clustermanager/manager.go:133-155 | every step of every interleaving keeps the invariant of the lock, the flags and the calls |
| `RecordRace.LaunchedAtMostOnce` | pkg/clustermanager/manager.go:133-155 | under every interleaving the controllers of a record are launched successfully at most once |
| `RecordRace.OwnerWrittenOnce` | pkg/clustermanager/manager.go:133-155 | once a call has returned success, the owner flag is the role of the one launch, and it never changes again |
| `UserControllers.SyncSettles` | pkg/api/controllers/usercontrollers/usercontroller.go:107-128 | a synchronisation without errors obeys the last word on every UID: it runs what was asked for in that role with the cache's connection data, has no record of what was dropped, leaves all else alone, and missed no eligible cluster in the cache |
| `UserControllers.WordOnListed` | pkg/api/controllers/usercontrollers/usercontroller.go:117-125 | the last word on a listed cluster: drop it if it is not eligible, run it in its own role if it is found in the cache, nothing otherwise |
| `UserControllers.SyncOn` | pkg/api/controllers/usercontrollers/usercontroller.go:107-128 | what a synchronisation, failed or not, makes of any record, without any premise on the listing: the last visit counts that reached it, by dropping a listed cluster or by starting what the cache then has under a listed name; the cache may change from visit to visit |
| `UserControllers.SyncNeverLeavesWrongRole` | pkg/api/controllers/usercontrollers/usercontroller.go:107-128 | even with errors no listed cluster is left running in the wrong role, and none that is not eligible has a record, if UIDs identify clusters and the eligible ones that did run in the wrong role are found in the cache under their own UIDs |
| `UserControllers.WrongRoleExactly` | pkg/api/controllers/usercontrollers/usercontroller.go:107-128 | a cluster is in the wrong role afterwards only if no visit reached a record that was wrong before, or the last that did came by a name listed under another UID with another role; and it then is, if nothing failed, or if no visit reached it and no answer of the API is about it |
| `UserControllers.MissingClusterKeepsRole` | pkg/clustermanager/manager.go:74-85 | a cluster that has left the cache makes the synchronisation fail, and the server goes on as owner of what it should follow |
| `UserControllers.RecreatedClusterKeepsRole` | pkg/clustermanager/manager.go:74-85 | a cluster made anew under the same name after the listing: nothing fails, the record of the old one stays as it is, and the new one is started in the old one's role |
| `UserControllers.WithSelfSeesFleet` | pkg/api/controllers/usercontrollers/usercontroller.go:90-105 | the received peers with the server itself, sorted, are the whole fleet, each member once |
| `UserControllers.SameFleetSameList` | pkg/api/controllers/usercontrollers/usercontroller.go:90-105 | servers that see the same fleet have the same list, in whatever order their peers came |
| `UserControllers.AgreeOnOwner` | pkg/api/controllers/usercontrollers/usercontroller.go:130-148 | of two servers that see one fleet, one owns a cluster iff it is the owner the other computes |
| `UserControllers.UniqueOwner` | pkg/api/controllers/usercontrollers/usercontroller.go:130-148 | in a fleet of two or more exactly one member claims a cluster |
| `UserControllers.LoneServer` | pkg/api/controllers/usercontrollers/usercontroller.go:130-148 | a single peer owns a cluster iff it is ready and leader |
| `UserControllers.Controller.SetPeers` | pkg/api/controllers/usercontrollers/usercontroller.go:90-105 | a received list replaces the old one, sorted and with the server itself; then all clusters are synchronised with it |
| `UserControllers.Controller.PeersSync` | pkg/api/controllers/usercontrollers/usercontroller.go:107-128 | the loop refines `Sync`: all clusters are visited although some fail |
| `Fleet.RunSound` | pkg/tunnelserver/peermanager.go:95-172 | over every run of the fleet each server keeps a sorted, duplicate-free view that includes itself, peers in step with the tunnel, and records under their UIDs |
| `Fleet.UpdateBringsAgreement` | pkg/tunnelserver/peermanager.go:95-138 | an endpoint update that lists the server is announced by a message that becomes a ready view of exactly the listed servers |
| `Fleet.OneRole` | pkg/api/controllers/usercontrollers/usercontroller.go:130-148 | in a fleet that agrees the views give a cluster to exactly one server; to a server that is alone iff it is leader |
| `Fleet.ExactlyOneOwner` | pkg/api/controllers/usercontrollers/usercontroller.go:107-148 | when every server runs the cluster in the role its view gives it, one server owns it and all others follow it; a server that is alone owns it iff it is leader and follows it otherwise |
| `Fleet.AtMostOneOwner` | pkg/api/controllers/usercontrollers/usercontroller.go:107-148 | when no server runs the cluster in a role its view does not give it, two servers never own it, and a server that is alone owns it only as leader |
| `Fleet.CalmAct` | pkg/api/controllers/usercontrollers/usercontroller.go:90-148 | one action of a server whose members stay the same: reaching a cluster gives it its role, puts it in place if all goes well, and leaves it without controllers, or without a record if it is not read, where nobody asks for it; and no update, election, delivery, synchronisation or read undoes that |
| `Fleet.CalmRun` | pkg/api/controllers/usercontrollers/usercontroller.go:90-148 | the same over every calm run of the fleet, seen from one server |
| `Fleet.CalmConverges` | pkg/api/controllers/usercontrollers/usercontroller.go:90-148 | from any sound fleet in agreement, of one server or more, every calm interleaving in which each server reaches the cluster converges |
| `Fleet.OwnershipConverges` | pkg/api/controllers/usercontrollers/usercontroller.go:90-148 | from servers as they start, after any run that ends in agreement, let updates, elections, deliveries, synchronisations, reads and failures interleave, and the cluster's connection data and eligibility change, while delivered views keep the same members, no synchronisation last starts the cluster by a name listed under another UID, one that tells a lone server of a change of leadership reaches the cluster, and each server reaches it once, finding it eligible and in its cache or not eligible: at most one server owns it; exactly one, followed by all others, if nothing failed and it stayed eligible with the same connection data; a server that is alone then owns it iff it is leader; if no server asked for it it runs nowhere, and has no record anywhere if nobody read it |
| `Fleet.LostClusterStays` | pkg/api/controllers/usercontrollers/usercontroller.go:107-128 | a synchronisation that lists one eligible cluster its cache has lost fails and leaves the whole fleet as it was, wrong roles included |
| `Fleet.RecreatedClusterStarts` | pkg/api/controllers/usercontrollers/usercontroller.go:117-125 | a server that lists a cluster whose name its cache then has under a new UID comes to own the new one iff its view gives it the old one |
| `Fleet.Inform` | pkg/tunnelserver/peermanager.go:95-138 | from any sound fleet with nothing in flight, updates that list the whole fleet, delivered server by server, bring it to agreement |
| `Fleet.Settle` | pkg/api/controllers/usercontrollers/usercontroller.go:107-128 | when everything outside works and eligible clusters can be reached, letting each server synchronise fails nowhere |
| `Fleet.FleetCanConverge` | pkg/api/controllers/usercontrollers/usercontroller.go:90-148 | for every fleet as it starts and every list of reachable clusters there is a run that meets all that `OwnershipConverges` asks for of every listed cluster, without failures |
| `RouterFactory.StepKeepsInv` | pkg/clusterrouter/factory.go:34-73 | every single read, write or lock step of any request keeps the invariant that ties both maps, the locks and what each request knows |
| `RouterFactory.OneServerPerCluster` | pkg/clusterrouter/factory.go:34-73 | under every interleaving at most one server is made per cluster, and every answered request gets it |
| `RouterFactory.SameAnswer` | pkg/clusterrouter/factory.go:34-73 | two requests for one cluster never get different servers |
| `RouterFactory.ServersNeverReplaced` | pkg/clusterrouter/factory.go:45-73 | a stored server is never replaced |
| `CatalogModel.ChangeDetection` | pkg/catalog/manager/traverse.go:52-74 | with distinct versions a chart counts as changed iff its version-to-digest map is not the recorded one |
| `CatalogModel.ChangeMissedExactly` | pkg/catalog/manager/traverse.go:52-74 | in general a change is missed iff all entries agree with the record, are as many as it has, and repeat a version |
| `CatalogModel.RepeatedVersionHidesRemoval` | pkg/catalog/manager/traverse.go:52-74 | a concrete index for which a removed version goes unnoticed |
| `CatalogModel.TemplateNameInjective` | pkg/catalog/manager/traverse.go:159-159 | charts of one catalog never share a template name |
| `CatalogModel.VersionNameInjective` | pkg/catalog/manager/crd.go:160-176 | versions of one template never share an object name |
| `CatalogModel.HoldsElsewhere` | pkg/catalog/manager/crd.go:54-121 | what a template holds is kept by changes to another one |
| `CatalogStore.MergeLabels` | pkg/catalog/manager/crd.go:124-144 | the labels are the requested ones and, unless requested, the existing catalog-name label |
| `CatalogStore.ReplacedHolds` | pkg/catalog/manager/crd.go:54-121 | putting the requested versions and dropping the others leaves exactly the requested specs and no other template's versions changed |
| `CatalogStore.CreatedHoldsExactly` | pkg/catalog/manager/crd.go:160-176 | a template whose distinct versions were created has exactly them iff what was there was right: no version twice, none but the wanted ones, and a name taken exactly where its spec is there |
| `CatalogStore.NewAdoptsExactly` | pkg/catalog/manager/crd.go:160-176 | for a template that has no versions yet that is: iff all their names are free |
| `CatalogStore.Store.ListVersions` | pkg/catalog/manager/crd.go:55-63 | the template's versions by version string, all of them and no others |
| `CatalogStore.Store.PutVersions` | pkg/catalog/manager/crd.go:68-93 | on success every spec is in its place: an existing object updated, a new one under a free name |
| `CatalogStore.Store.DropVersions` | pkg/catalog/manager/crd.go:95-107 | on success exactly the listed versions that are not requested are gone |
| `CatalogStore.Store.UpdateVersions` | pkg/catalog/manager/crd.go:54-107 | on success the labelled versions are exactly the requested ones with equal specs; others are unchanged either way |
| `CatalogStore.Store.UpdateTemplate` | pkg/catalog/manager/crd.go:54-121 | the same, and the template is the requested one with the merged labels; failure means a request was refused |
| `CatalogStore.Store.CreateVersions` | pkg/catalog/manager/crd.go:160-176 | new versions are added below what is there; one that exists is left alone and is no error |
| `CatalogStore.Store.CreateTemplate` | pkg/catalog/manager/crd.go:22-39 | on success the template is new and carries the catalog-name label, and holds exactly its versions iff what was there was right |
| `CatalogStore.Store.DeleteChart` | pkg/catalog/manager/manager.go:51-65 | on success the template and all its versions are gone; nothing else changes either way |
| `CatalogSync.DetectChange` | pkg/catalog/manager/traverse.go:44-69 | the loop computes the chart's digests and whether it has changed |
| `CatalogSync.SkippedIsCurrent` | pkg/catalog/manager/traverse.go:71-74 | a skipped chart is stored, built from entries with the same digests |
| `CatalogSync.NextDigests` | pkg/catalog/manager/traverse.go:44-238 | whatever was skipped, the charts are built from entries with the index's digests |
| `CatalogSync.Manager.PutChart` | pkg/catalog/manager/traverse.go:207-215 | on success the chart's template and versions are as built from its entries, and only they were touched |
| `CatalogSync.Manager.VisitChart` | pkg/catalog/manager/traverse.go:44-220 | a chart skipped or rebuilt leaves the store as a full pass over the charts so far would, and its digests are returned |
| `CatalogSync.Manager.RebuildChart` | pkg/catalog/manager/traverse.go:76-220 | the same for a chart that is rebuilt, with every way it can fail |
| `CatalogSync.Manager.UpdateCharts` | pkg/catalog/manager/traverse.go:44-220 | the loop over the index in any order; a failed chart is left out of the new record, which is the index's if none failed |
| `CatalogSync.Manager.DropCharts` | pkg/catalog/manager/traverse.go:222-235 | charts no longer in the index are deleted, in any order |
| `CatalogSync.Manager.UpdateAndDrop` | pkg/catalog/manager/traverse.go:44-238 | both loops one after the other, with every way they can end |
| `CatalogSync.Manager.TraverseAndUpdate` | pkg/catalog/manager/traverse.go:19-277 | a sync that completes records the index's digests and the commit whatever is stored, and leaves exactly the index's charts if the index is well-formed and its new names are free; no foreign object is ever touched, and objects keep the names made for them; it fails only if something was refused or a chart has no versions |
| `CatalogSync.Manager.Sync` | pkg/catalog/manager/catalog_sync.go:18-47 | nothing is done iff the catalog is up to date; a completed sync is a step of a run |
| `CatalogSync.MirrorsAfterEverySync` | pkg/catalog/manager/traverse.go:19-277 | after every sync of every run over well-formed indexes whose new names are free, the stored templates are exactly the index's charts, their version-to-digest maps are the index's, and the record matches |
| `CatalogSync.IncrementalIsRebuild` | pkg/catalog/manager/traverse.go:19-277 | when digests identify contents, every sync leaves what building every chart of its index anew would |
| `CatalogSync.SharedNamesNeverMirror` | pkg/catalog/manager/crd.go:160-176 | where objects have the names made for them, an index in which two charts share a version name is mirrored by no store |
| `CatalogSync.ChartsThatShareAName` | pkg/catalog/manager/crd.go:164-164 | a concrete index of that kind: version 1.0-2.0 of foo and version 2.0 of foo-1.0 |
| `CatalogSync.Manager.FirstSync` | pkg/catalog/manager/traverse.go:19-277 | a catalog's first sync that completes, with all names free, records the digests, and mirrors the index iff no two of its charts share a name |
| `Rbac.FlatteningOfRule` | pkg/rbac/permission_index.go:110-147 | a rule that matches covers an object iff one of the permissions it is flattened to answers for it |
| `Rbac.FlatteningExact` | pkg/rbac/permission_index.go:89-147 | for every caller and object the bindings allow it iff some flattened permission answers for it; no premise about "*" is needed |
| `Rbac.BySubject` | pkg/rbac/permission_index.go:58-87 | a binding is indexed under exactly its subjects of the kind |
| `Rbac.FilterPermissions` | pkg/rbac/permission_index.go:110-147 | exactly the permissions of the role's matching rules are appended, list turning into get for named resources |
| `Rbac.Get` | pkg/rbac/permission_index.go:89-108 | exactly what the subject's role bindings and cluster role bindings grant |
| `Rbac.GetPermissions` | pkg/rbac/access_control.go:99-111 | exactly what the user's and all groups' bindings grant |
| `Rbac.CanAccessExact` | pkg/rbac/access_control.go:51-72 | the three lookups decide as the bindings do, for objects with a namespace field, a namespace in the ID, or none |
| `Rbac.CanDo` | pkg/rbac/access_control.go:26-33 | access iff some binding of the user or a group resolves to a rule that matches and covers the object |
| `Rbac.Filter` | pkg/rbac/access_control.go:35-49 | an object is kept iff it may be listed, or the schema names no resource |
| `Rbac.FilterList` | pkg/rbac/access_control.go:74-97 | exactly the objects that may be listed are kept, in order |
| `Rbac.FilterListMonotone` | pkg/rbac/access_control.go:74-111 | with more bindings or groups the old result is a subsequence of the new one |
| `AuthRefresh.FindPrincipal` | pkg/auth/providerrefresh/refresher.go:190-201 | the first principal ID with the provider's prefix |
| `AuthRefresh.Refresher.DeleteLogins` | pkg/auth/providerrefresh/refresher.go:265-276 | on success exactly the user's login tokens with the provider are gone; a missing one is no error |
| `AuthRefresh.Refresher.RefreshProvider` | pkg/auth/providerrefresh/refresher.go:189-277 | the verdict is that of the specification, and login tokens go iff it is a refusal |
| `AuthRefresh.Refresher.DisableDerived` | pkg/auth/providerrefresh/refresher.go:284-290 | on success exactly the user's listed derived tokens are disabled |
| `AuthRefresh.Refresher.VisitProviders` | pkg/auth/providerrefresh/refresher.go:189-277 | whatever the order, groups, tokens and both flags are those of the providers' verdicts |
| `AuthRefresh.Refresher.RefreshAttributes` | pkg/auth/providerrefresh/refresher.go:149-293 | on success login tokens are gone exactly where a known provider refused, derived tokens are disabled iff none confirmed and none was unreachable, unreachable providers keep their groups; other users' tokens are never touched; it fails only for a stated reason |
| `AppAnswers.OverwrittenUnique` | pkg/monitoring/monitoring.go:155-197 | the documented result determines one map |
| `AppAnswers.PutRoots` | pkg/monitoring/monitoring.go:206-210 | the loop stores the value under every root and changes nothing else |
| `AppAnswers.FanOut` | pkg/monitoring/monitoring.go:203-214 | every remaining answer under the prefix is taken once, in some order, and the result is that order's |
| `AppAnswers.OverwriteAppAnswers` | pkg/monitoring/monitoring.go:198-225 | every run of the loops, with deletes during iteration, is a full walk and gives its result; for separate templates whose shared keys agree that is raw answers overlaid by expansions overlaid by the explicit answers |
| `AppAnswers.FullOverwrites` | pkg/monitoring/monitoring.go:198-225 | no answer fanned out twice, no template fanned out, shared keys agree: then every order gives the documented result |
| `AppAnswers.OneResultExactly` | pkg/monitoring/monitoring.go:198-225 | for separate templates the order does not matter iff answers that share a key share a value or an explicit answer has that key |
| `AppAnswers.RivalsDiffer` | pkg/monitoring/monitoring.go:201-218 | two templates for one answer whose roots differ in effect: the one visited first decides, so orders differ |
| `AppAnswers.TwoTemplatesTwoResults` | pkg/monitoring/monitoring.go:201-218 | a concrete map with two results |
| `AppAnswers.UnparsedTakesAll` | pkg/monitoring/monitoring.go:236-260 | a template that does not parse, visited first, takes every answer out and nothing is overwritten |
| `Tokens.ExpiryExact` | pkg/auth/tokens/token_util.go:46-56 | expiry is exact at every moment iff the time to live in nanoseconds fits 64 bits, or is negative and wraps to the least duration |
| `Tokens.LongLivedTokenExpiresAtOnce` | pkg/auth/tokens/token_util.go:46-56 | a concrete time to live for which a new token counts as expired |
| `Tokens.PresentsText` | pkg/auth/tokens/token_util.go:29-35 | without colons in name or key, a string presents a token iff it is name:key |
| `Tokens.Retrieve` | pkg/auth/tokens/manager.go:151-183 | with a reliable index and store, each outcome says what the store holds under the name |
| `Tokens.GetToken` | pkg/auth/tokens/manager.go:148-183 | found iff the string splits as name and key of a stored unexpired token, and then that token; expired likewise |
| `Tokens.TokenFromRequest` | pkg/auth/requests/authenticate.go:115-160 | the same through index and fallback, for the value taken from the request |
| `Tokens.Manager.constructor` | pkg/auth/tokens/manager.go:43-73 | no tokens at the start |
| `Tokens.Manager.CreateToken` | pkg/auth/tokens/manager.go:118-142 | the new token carries its user's ID as its only label |
| `Tokens.Manager.CreateDerivedToken` | pkg/auth/tokens/manager.go:94-116 | made iff a stored unexpired token is presented and the API server takes it; user and provider are that token's |
| `Tokens.Manager.DeleteTokenByName` | pkg/auth/tokens/manager.go:226-237 | the token is gone unless the API server fails; a missing one is no error |
| `Tokens.Manager.DeleteToken` | pkg/auth/tokens/manager.go:211-224 | success removes exactly the presented token, expired or not; a presented token is removed unless the API server fails |
| `Tokens.Manager.Purge` | pkg/auth/tokens/purge_daemon.go:32-52 | exactly the listed expired tokens go whose deletion does not fail |
| `Tokens.Manager.GetTokens` | pkg/auth/tokens/manager.go:186-209 | granted iff a stored unexpired token is presented and the list call succeeds; then exactly that user's tokens, each once, expired ones marked |
| `Tokens.ByLabelIsByUser` | pkg/auth/tokens/manager.go:193-208 | as every token's label is its user's ID, listing by label lists by user |
| `RoleTargets.ResolveRoles` | pkg/api/customization/globalnamespaceaccess/access_common.go:103-124 | fails iff a role does not exist; otherwise the requested project and cluster roles |
| `RoleTargets.ScanProject` | pkg/api/customization/globalnamespaceaccess/access_common.go:136-165 | the loop with its early continue counts bindings to requested roles and finds owner and member |
| `RoleTargets.ScanClusterOwner` | pkg/api/customization/globalnamespaceaccess/access_common.go:197-215 | the loop with its break finds out whether the caller owns the cluster |
| `RoleTargets.CheckProject` | pkg/api/customization/globalnamespaceaccess/access_common.go:128-244 | a missing project is an error; otherwise accepted iff the project's test passes |
| `RoleTargets.CheckProjects` | pkg/api/customization/globalnamespaceaccess/access_common.go:128-244 | when all else can be looked up: an error iff some project is missing, else a denial iff some target is denied, although the loop goes on |
| `RoleTargets.CheckCluster` | pkg/api/customization/globalnamespaceaccess/access_common.go:249-310 | when the lookups succeed and no role is asked for both as cluster and as project role: accepted iff the binding count matches or the caller owns the cluster, whatever role is missing |
| `RoleTargets.DepartsFromClusterRule` | pkg/api/customization/globalnamespaceaccess/access_common.go:249-310 | that differs from the intended rule (all held, or owner with all missing ones builtin) iff an owner lacks a custom role, or another caller's binding count misleads |
| `RoleTargets.OwnerGrantsCustomRole` | pkg/api/customization/globalnamespaceaccess/access_common.go:284-294 | a concrete cluster owner who may grant a custom cluster role they lack |
| `RoleTargets.CheckClusters` | pkg/api/customization/globalnamespaceaccess/access_common.go:249-310 | accepted iff every cluster is, in any order |
| `RoleTargets.Decide` | pkg/api/customization/globalnamespaceaccess/access_common.go:103-316 | without lookup errors the outcome is the decision function |
| `RoleTargets.EnsureRoleInTargets` | pkg/api/customization/globalnamespaceaccess/access_common.go:89-316 | an error if it is unknown whether the caller is administrator; administrators need existing projects only; others, when the lookups succeed, get the decision, which for single bindings is the intended rule in every project and cluster unless an owner lacks a custom cluster role |
| `RoleTargets.AllExist` | pkg/api/customization/globalnamespaceaccess/access_common.go:94-102 | true iff every target project exists |
| `RoleTargets.CountHeld` | pkg/api/customization/globalnamespaceaccess/access_common.go:145-166 | the count of bindings is at least the number of roles held, and equal iff no role is bound twice |
| `RoleTargets.PassesIsRule` | pkg/api/customization/globalnamespaceaccess/access_common.go:145-219 | with at most one binding per role the project test is the intended rule |
| `RoleTargets.DepartsFromRule` | pkg/api/customization/globalnamespaceaccess/access_common.go:145-219 | in general it departs from the rule exactly in two described cases |
| `RoleTargets.TwoBindingsPassForTwoRoles` | pkg/api/customization/globalnamespaceaccess/access_common.go:145-166 | a concrete caller bound twice to one role who passes for two |
| `RoleTargets.DecisionIsRule` | pkg/api/customization/globalnamespaceaccess/access_common.go:89-316 | for single bindings and no owner who lacks a custom cluster role: accepted iff in every target project the caller holds all project roles, or all missing ones are builtin and the caller is project owner, cluster owner, or member with the owner role not missing, and in every cluster the caller holds all cluster roles or owns it with all missing ones builtin |
| `Containers.Docker.Sift` | pkg/rkeworker/docker_unix.go:49-69 | exactly the listed containers that no longer match are removed, the others kept in order |
| `Containers.Docker.DropRepeats` | pkg/rkeworker/docker_unix.go:71-75 | all kept containers but the first are removed |
| `Containers.Docker.Tidy` | pkg/rkeworker/docker_unix.go:28-75 | on success what no longer matches is gone, and of what matches all but the first, which is gone too iff it had both labels; no other container had both; it fails only if a request does or a container with both labels trips it |
| `Containers.OnlyKeptHasBoth` | pkg/rkeworker/docker_unix.go:49-75 | when both loops succeed, a container with both labels can only be the one to keep |
| `Containers.Docker.RunProcess` | pkg/rkeworker/docker_unix.go:21-126 | on success the process has exactly one container, unchanged or new, iff no container had both labels; otherwise it has none; containers for other names are untouched; it fails only if a request does, or a container with both labels no longer matches, has another matching one beside it, or is for a share-mnt process |
| `Containers.Docker.BothLabelsLost` | pkg/rkeworker/docker_unix.go:21-126 | a concrete node: after a run that reports no error, a lone container with both labels that still matches is gone; the run reports one only if a request fails |
| `Containers.FirstRepeats` | pkg/rkeworker/docker_unix.go:34-48 | the container to keep is listed twice iff both label queries return it |
| `Containers.OneMoreInPlace` | pkg/rkeworker/execute_unix.go:10-28 | running a process puts it in place with respect to the start of the plan and keeps the others in place |
| `Containers.StillInPlace` | pkg/rkeworker/execute_unix.go:10-28 | the second pass keeps every sidekick in place |
| `Containers.Docker.Pass` | pkg/rkeworker/execute_unix.go:10-28 | one pass in any order puts all of its processes in place |
| `Containers.Docker.DoExecutePlan` | pkg/rkeworker/execute_unix.go:10-28 | if no container has both labels, success leaves exactly one container per process, unchanged or new; all sidekicks are in place before the second pass, which leaves them alone; other containers are untouched |
| `RoleBuilding.Added` | app/rolebuilder.go:53-69 | the role goes to the first nameless builder from here on, or to a new last one, and no other builder changes |
| `RoleBuilding.RoleBuilder.constructor` | app/rolebuilder.go:39-41 | a new builder is a chain of one |
| `RoleBuilding.RoleBuilder.AddRole` | app/rolebuilder.go:53-69 | the chain stays well linked in both directions, keeps its builders, and holds the roles of `Added`; the result is the builder of the new role |
| `RoleBuilding.RoleBuilder.First` | app/rolebuilder.go:84-89 | from any builder of a chain the walk back ends at its head |
| `RoleReconcile.Build` | app/rolebuilder.go:175-182 | from any builder, the walk covers the whole chain |
| `RoleReconcile.BuiltIs` | app/rolebuilder.go:176-182 | the built role of a name is that of the last builder with the name |
| `RoleReconcile.Client.Gather` | app/rolebuilder.go:238-251 | the loop gathers every default role by its name, as stored, and no other role |
| `RoleReconcile.Client.Prune` | app/rolebuilder.go:189-197 | default roles that are not built are deleted, in any order |
| `RoleReconcile.Client.Write` | app/rolebuilder.go:199-217 | each built role is created, or updated iff it compares unequal, in any order |
| `RoleReconcile.Client.Reconcile` | app/rolebuilder.go:175-220 | on success exactly the names that need a write were written; it fails only if a request fails or a role that is no default role has a built name |
| `RoleReconcile.AfterAll` | app/rolebuilder.go:189-217 | what a successful run leaves under each name |
| `RoleReconcile.GlobalRolesConverge` | app/rolebuilder.go:222-269 | the labelled global roles are exactly the built ones with built display name and rules, survivors keep their other fields, and the next run writes nothing |
| `RoleReconcile.ReconcileGlobalRoles` | app/rolebuilder.go:222-269 | on success the labelled global roles are exactly the built ones with built display name and rules, survivors keep their other fields and the next run needs no request; where none was needed before, none is made; it fails only if a request does or a role that is not a default one has a built name |
| `RoleReconcile.TemplatesConverge` | app/rolebuilder.go:271-330 | every compared field but Builtin converges; Builtin stays wrong iff it was the only difference; the next run writes exactly the templates that are right and changes none |
| `RoleReconcile.TemplatesRewritten` | app/rolebuilder.go:308-330 | once converged, a template needs writing iff its Builtin is right, and writing any of them changes nothing |
| `RoleReconcile.ReconcileRoleTemplates` | app/rolebuilder.go:271-333 | on success every compared field but Builtin has converged; where that held before, nothing changes although exactly the templates with the right Builtin are written; it fails only if a request does or a template that is not a default one has a built name |
| `RoleReconcile.BuiltinStaysWrong` | app/rolebuilder.go:315-318 | any stored template that differs in Builtin only is left as it is |
| `Digest.ParseChallenge` | pkg/httpproxy/sign.go:150-166 | the loop computes the specification: refused, out of range at a term without an equals sign, or the values |
| `Digest.OutOfRangeExactly` | pkg/httpproxy/sign.go:150-166 | the index runs out of range iff the header has the prefix and some term has no equals sign |
| `Digest.ReadIsClean` | pkg/httpproxy/sign.go:158-164 | no value that is read contains a comma and space or has a quote at either end |
| `Digest.SplitJoinExactly` | pkg/httpproxy/sign.go:159-207 | splitting what was joined gives the terms back iff there are any and none of them contains the separator |
| `Digest.RoundTrip` | pkg/httpproxy/sign.go:150-208 | a printed list of fields is read back exactly iff no value contains a comma and space, none has a quote at either end, and an unquoted last one does not end in white space |
| `Digest.SignatureRoundTrip` | pkg/httpproxy/sign.go:150-208 | the same for signatures: username, realm, nonce, uri, response and any opaque, qop, nc and cnonce |
| `Digest.ResponseIsRequestDigest` | pkg/httpproxy/sign.go:168-183 | the response is the request digest of section 3.2.2.1 of RFC 2617, in its forms with and without qop |
| `Digest.BuildSignature` | pkg/httpproxy/sign.go:185-208 | an unknown qop or an empty response gives an error, otherwise the fields in order |
| `Interval.RoundMonotone` | pkg/api/customization/monitor/interval.go:104-196 | rounding keeps the order |
| `Interval.QuerySizeBound` | pkg/api/customization/monitor/interval.go:49-60 | range divided by step is at most 10,500, and below 1,500 when the minimum is used |
| `Interval.QuerySizeBoundIsReached` | pkg/api/customization/monitor/interval.go:104-196 | the bound is tight |
| `Interval.StepNeverDecreases` | pkg/api/customization/monitor/interval.go:49-60 | for a minimum the step never decreases with the range iff rounding does not take the minimum below itself, or no range reaches rounding |
| `Interval.DefaultMinimum` | pkg/api/customization/monitor/interval.go:49-60 | with the default minimum the step is at least a second and never decreases |
| `Interval.LongerRangeShorterStep` | pkg/api/customization/monitor/interval.go:49-60 | a concrete minimum for which a longer range gets a shorter step |
| `Interval.TextIsStep` | pkg/api/customization/monitor/interval.go:76-102 | a rounded step is printed exactly; a minimum is rounded down to its unit |
| `Ordering.SortedCanonical` | pkg/api/controllers/usercontrollers/usercontroller.go:94-98 | a sorted sequence is determined by its elements |
| `Ordering.SortOrderIrrelevant` | pkg/api/controllers/usercontrollers/usercontroller.go:94-98 | whatever order a set is listed in, sorting gives the same sequence |

## Left out

- HTTP handlers, TLS, dialers, git, docker and kubectl execution, notifiers, the UI and formatters: thin wrappers over libraries.
- Static data such as the default roles, drivers, catalogs and settings: there is nothing to prove about it.
- Slices and maps that are shared in Go (peer lists sent to listeners, the cached map that merging labels writes to) are values.
- Channels of listeners have no capacity: a notification never blocks.
- Peer lists of 2^31 peers and more.
- ClusterManagement.Manager.MarkUnavailable: does not model the status condition that is written to the API.
- Connection set-up beyond its four checks.
- Reading the flags of a record without its lock while another call writes them.
- Retrying the start of controllers after a failed one while other calls are under way.
- Catalogs after a sync that failed: only syncs that complete are steps of a run.
- The icon, description, categories, upgrade links and files of a chart; cluster and project catalogs, whose labels and external IDs differ.
- Taking the token out of request headers and cookies, and the groups a request is given.
- The floating-point seconds of the expiry test: durations are exact nanoseconds.
- Storing a user's groups on first login.
- The lock that serialises project creation.
- The short-lived container that links logs, and its errors.
- A process whose own labels set the older name label.
- Starting and restarting of containers: the model keeps which containers exist and what they were made from.
- Building rules one call at a time, and the flags that the builder of role templates sets: a role's data are one value.
- The difference between an empty and an absent list in Go's comparison of rules and role template names.
- Printing the count of a duration in decimal.
