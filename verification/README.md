# Sealtun: a verified model

Sealtun exposes a local service through a relay server in a Kubernetes cluster. This project models the parts of it
that keep state, and proves what they keep:

| module | models |
|---|---|
| `Text`, `Sequences` | the string operations of the Go standard library that the rest relies on, and the ends of sequences |
| `RateLimiting`, `OverflowBurst` | the per-client rate limiter with lazy pruning, a table cap and a shared overflow bucket, and its worst case |
| `Routes` | path-prefix routing: validation, dispatch, prefix stripping, redirect rewriting, table equality and labels |
| `Sessions` | the encrypted session store: saves, compare-and-write updates, the credential scrub, remote merges, worker writes |
| `Daemon` | the reconciler that starts, cancels and reaps one worker goroutine per tunnel |
| `Locks` | nested tunnel locks in sorted order, then the store lock |
| `Objects`, `Cluster`, `Transactions`, `Kubernetes`, `Tenants` | the Kubernetes objects, the API server with other writers and a record of who changed what, the compensation log, the ensure, domain, scale and cleanup operations, and any sequence of them by many tunnels |
| `ServerView` | what the server in a provisioned pod is told, how it is reached, and when a changed configuration replaces it |
| `RemoteState` | what is read back from the cluster, and when a session record agrees with it |
| `Reapply`, `Apply` | one item of an apply file over time, and the batch with its rollback |
| `Server`, `Relay`, `RequestLog` | stream opening under a slot limit, the audit ring, the two-way relay, the request log and its polling follower |

Everything the code only calls is a parameter or a nondeterministic outcome: clocks, randomness, HMAC, bcrypt, JSON,
time formatting, DNS, the network and the disk. A disk write or an API call happens completely or not at all; the outcome of each disk
write is an input, and so is whether every API call gets through.
Concurrent parts are state machines whose runs are sequences of states joined by enabled actions, so a statement about
the last state of every run is a statement about every reachable state. Objects that the Go code updates in place are
classes; their methods are proved against functions of the old state.

## Results worth knowing

* **Rate bounds.** In any half-open interval of one window a client is granted at most 2L - 1 requests when it is never
  served from the overflow bucket, and at most 3L - 1 otherwise (`RateLimiting.RateBound`). Both bounds are reached for
  every limit: the first for every window of two ticks or more (`RateLimiting.RateBoundIsTight`), the second for every
  window of a second or more, by a client that meets a full table (`OverflowBurst.OverflowBoundIsTight`).
* **Claims that are false as they stand, with their exact condition and an input.**
  * Putting the matched prefix back in front of the stripped path gives the request path for every matched path if and
    only if the normalized prefix does not end in white space; `Validate` rejects space and tab but lets a line feed
    through (`Routes.StripRoundTrip`, `Routes.LineFeedRoute`). The same condition decides whether a rewritten redirect
    strips back to the original Location (`Routes.RewriteRoundTrip`).
  * A rewritten redirect comes back to the route it came from if and only if no other prefix goes on from that route's
    with a prefix of the Location (`Routes.RewriteComesBack`). With routes `/a` and `/a/login`, a redirect of the first to
    `/login` reaches the second (`Routes.RedirectTaken`).
  * After a save, "PID 0 goes with an empty start token" holds if and only if the save was not one over a scrubbed
    record with an owner that has a start token (`Sessions.ZeroPidToken`, `Sessions.ZeroPidTokenFails`).
  * `UpdateAtomic` returns the mutated copy. It is the record written, up to stamps and start token, if and only if the
    stored record was not scrubbed or the new contents were already clean and noted (`Sessions.ReturnedIsWritten`,
    `Sessions.ReturnedIsNotWritten`).
* **Where the follower loses entries.** It prints everything if and only if no more than 200 entries arrive between two
  consecutive polls (`RequestLog.CompleteIffSmallGaps`).
* **Ensuring twice.** With nobody else around and no custom domain, a second ensure writes no secret, service or ingress:
  the existing salt keeps the configuration digest stable. It leaves the deployment alone exactly when the stored
  container ports are still without a protocol, that is on a server that does not fill port protocols in
  (`Kubernetes.Client.EnsureTunnelWithOptions`, `Tenants.EnsureTwice`). One that does, as Kubernetes documents it, stores
  `TCP` where the client sends nothing; the comparison of containers, unlike that of services, takes the two for
  different, so every repeated ensure writes the deployment again (`Objects.DeploymentNeverUpToDate`).
* **Reading back.** Reading the remote state right after a successful ensure gives the request back
  (`RemoteState.EnsuredIsReadBack`). A merge of it leaves the session record alone if and only if secret, target, user
  name and password hash have no white space to trim, a login is enabled, an access policy is not empty, and quantities are
  written as they read (`RemoteState.EnsuredRecordAgrees`; an empty policy is lost, `RemoteState.EmptyPolicyIsLost`).
* **When a call succeeds.** On a server that every call gets through to, with nobody else around, ensure and the domain
  operations succeed exactly if the request is acceptable and nobody else's object is in the way, and a failed ensure always
  rolls back without error (`Kubernetes.Client.EnsureTunnelWithOptions`, `Kubernetes.Client.ConfigureCustomDomain`). A batch
  succeeds exactly if its names are valid, every item applies, the daemon starts and every tunnel connects
  (`Apply.RunApply`).
* **What the pods see.** Resolved through the stored deployment's flags, the environment variables they name and the stored
  secret, the server gets exactly the secret, user name, password hash, policy and endpoint that were asked for
  (`ServerView.ProvisionedServerIsTold`), and a change of any of them puts the deployment out of date
  (`ServerView.ChangeIsNoticed`).
* **Isolation.** Run any sequence of operations by any tunnels, let them fail, roll back and fail to roll back: an object
  labelled as another tunnel's is as it was, unless other writers touched it (`Tenants.RunCommands`). Names do not give
  this: the derived names of two tunnels meet exactly when one tunnel is called like the other with `-tcp`, `-auth` or
  `-app` behind (`Cluster.NameCollisions`).

## Model

| member | source | states |
|---|---|---|
| RateLimiting.RateLimiter.Prune | pkg/accesspolicy/access_policy.go:240-253 | pruning is due above 1024 buckets and a second after the last one, and drops exactly the buckets idle for two windows |
| RateLimiting.RateLimiter.AllowLocked | pkg/accesspolicy/access_policy.go:216-238 | one request under the mutex: prune, pick the client's or the overflow bucket, restart an expired window, count, compare with the limit |
| RateLimiting.NewRateLimiter | pkg/accesspolicy/access_policy.go:199-207 | a limiter exists exactly for a positive limit and window, and starts empty |
| RateLimiting.Allow | pkg/accesspolicy/access_policy.go:209-216 | no limiter allows everything; a zero time is replaced by the clock |
| RateLimiting.BucketBound | pkg/accesspolicy/access_policy.go:223-253 | one bucket grants at most 2L - 1 requests in any window-long interval, since a live bucket survives pruning for two windows |
| RateLimiting.MixedBound | pkg/accesspolicy/access_policy.go:223-238 | once a client was served from the overflow bucket in the interval, its own bucket grants it at most L there |
| RateLimiting.RateBound | pkg/accesspolicy/access_policy.go:209-253 | for non-decreasing non-zero times every client is granted at most 3L - 1 requests per window-long interval, and at most 2L - 1 if none came from the overflow bucket |
| RateLimiting.RateBoundIsTight | pkg/accesspolicy/access_policy.go:223-238 | for every limit and every window of at least two ticks there are requests that reach 2L - 1 |
| RateLimiting.TableBound | pkg/accesspolicy/access_policy.go:20-25 | after any requests the table holds at most 65536 buckets, at most 65535 of them not the overflow bucket |
| RateLimiting.PruningIsInvisible | pkg/accesspolicy/access_policy.go:223-253 | while no request was sent to the overflow bucket, every answer is that of a limiter with an unbounded table that never prunes |
| OverflowBurst.OverflowBoundIsTight | pkg/accesspolicy/access_policy.go:223-253 | for every limit and every window of at least the pruning interval there are requests that reach 3L - 1 from a limiter that starts empty |
| OverflowBurst.BurstBehindCrowd | pkg/accesspolicy/access_policy.go:223-253 | any client that comes after any 65535 others can be granted the rest of one overflow window, all of the next and a window of its own inside one window |
| Routes.NormalizePath | pkg/routes/routes.go:73-85 | trims, makes absolute and drops trailing slashes one at a time |
| Routes.Validate | pkg/routes/routes.go:43-69 | accepts exactly the tables whose routes are all well formed and whose normalized prefixes are pairwise different |
| Routes.ValidateRoute | pkg/routes/routes.go:46-62 | the conditions on one route: absolute, no query, fragment, space, tab, percent or dot-dot, port in range |
| Routes.PlainRouteMeans | pkg/routes/routes.go:46-62 | what makes a route plain, character by character |
| Routes.MatchRoute | pkg/routes/routes.go:100-122 | the first route of greatest matching prefix length, with its path normalized |
| Routes.FirstOfLongest | pkg/routes/routes.go:100-122 | among prefixes of the same length the first wins |
| Routes.MatchesBySegments | pkg/routes/routes.go:140-145 | a prefix matches a path exactly when the path is absolute and the prefix's segments are the first segments of the path |
| Routes.MatchIsUniqueLongest | pkg/routes/routes.go:87-122 | on validated tables the match is the one route whose segment list is the longest prefix of the path's, independent of table order; no match means no route applies |
| Routes.Equal | pkg/routes/routes.go:158-174 | true exactly when the multisets of `path=port` keys agree |
| Routes.EqualKeyInjective | pkg/routes/routes.go:162-168 | the `path=port` key determines normalized path and port, even if the path contains an equals sign |
| Routes.EqualIffSameDispatch | pkg/routes/routes.go:157-174 | validated tables are equal exactly when they dispatch every request path to the same prefix and port |
| Routes.OwnPrefixWins | pkg/routes/routes.go:100-122 | a request for a route's own prefix goes to that route |
| Routes.LabelInjective | pkg/routes/routes.go:149-155 | validated tables with equal labels agree route by route on normalized prefix and port |
| Routes.LabelDetermined | pkg/routes/routes.go:149-155 | the label depends on normalized prefixes and ports only |
| Routes.NormalizedTwice | pkg/routes/routes.go:73-85 | normalizing again changes nothing exactly when the normalized path does not end in white space |
| Routes.StripRoundTrip | pkg/routes/routes.go:128-138 | for every matched path, prefix plus stripped path is the path and the stripped path is absolute, exactly when the matched prefix does not end in white space |
| Routes.RootStripsNothing | pkg/routes/routes.go:128-138 | the root prefix strips nothing |
| Routes.LineFeedRoute | pkg/routes/routes.go:43-69 | a table that validation accepts and whose prefix is stripped wrongly |
| Routes.RewriteRedirectLocation | pkg/tunnel/route_forward.go:139-151 | prefixes an absolute-path Location that is not already under the route prefix, and leaves every other one alone |
| Routes.RewrittenUnderPrefix | pkg/tunnel/route_forward.go:139-151 | every absolute-path Location ends up under the prefix, and is left alone exactly when it already is, the prefix itself included |
| Routes.RewriteIdempotent | pkg/tunnel/route_forward.go:139-151 | rewriting twice is rewriting once; network-path and relative references are untouched |
| Routes.RewriteRoundTrip | pkg/tunnel/route_forward.go:139-151 | a rewritten Location is matched by the route's prefix again, and strips back to the original exactly when the prefix does not end in white space |
| Routes.RewriteComesBack | pkg/tunnel/route_forward.go:139-151 | on a validated table a rewritten Location is dispatched to the same route exactly when no route's prefix continues that route's prefix with a prefix of the Location |
| Routes.RedirectTaken | pkg/tunnel/route_forward.go:139-151 | a validated table on which a rewritten redirect reaches another route |
| Routes.RedirectTakenByLonger | pkg/tunnel/route_forward.go:139-151 | the same for every pair of plain paths |
| Sessions.SessionStore.SaveLocked | pkg/session/session.go:223-275 | a save stamps, refreshes the start token, keeps a scrubbed record scrubbed and either replaces exactly this file or changes nothing; it succeeds exactly if the id is valid, the old file can be read and the disk takes the write |
| Sessions.SessionStore.Save | pkg/session/session.go:132-140 | the same for any valid id |
| Sessions.SessionStore.Update | pkg/session/session.go:142-162 | the same, only over an existing file |
| Sessions.SessionStore.UpdateAtomic | pkg/session/session.go:166-196 | reads, mutates and writes in one step; returns exactly the mutated copy, or nothing where the record is missing, the mutation refuses or changes the id, or the write fails |
| Sessions.SessionStore.Get | pkg/session/session.go:446-471 | returns only a readable record whose id is the file's name |
| Sessions.SessionStore.Delete | pkg/session/session.go:361-377 | removes exactly the file of a valid id, or nothing |
| Sessions.SessionStore.ScrubCredentials | pkg/session/session.go:379-444 | visits the entries in order, removing unreadable ones and wiping unscrubbed records, and stops exactly at the first that cannot be written |
| Sessions.TunnelIDsAreLabels | pkg/session/session.go:22 | the ids are the lower-case DNS labels of at most 55 characters |
| Sessions.StampsWritten | pkg/session/session.go:228-231 | the creation time is set once, the update time at every save |
| Sessions.TokensWritten | pkg/session/session.go:715-729 | no owner has no start token, the writer's own is looked up anew, and somebody else's is kept or looked up where it is missing |
| Sessions.ScrubStep | pkg/session/session.go:326-359 | any single write by anybody but a delete keeps a scrubbed record scrubbed and leaves it untouched or clean |
| Sessions.ScrubIsSticky | pkg/session/session.go:326-359 | over every run of store operations, merges and worker writes without a delete, a scrubbed record stays scrubbed and is the original or free of credentials, without owner and stopped |
| Sessions.ScrubCleans | pkg/session/session.go:426-440 | scrubbing a record's entry leaves it marked, and clean if it was not marked before |
| Sessions.MergeSessionRemoteState | cmd/session_helpers.go:434-496 | rewrites the fields the remote state decides, skips credentials of a scrubbed record, and reports a change exactly when the record differs |
| Sessions.AddressMerged | cmd/session_helpers.go:434-466 | what the cluster decides about host, domain, protocol, port and target, and what it leaves alone |
| Sessions.PortMerged | cmd/session_helpers.go:444-448 | the public port is taken over where there is one, or where a deployment with a protocol says that there is none |
| Sessions.CredentialsMerged | cmd/session_helpers.go:467-480 | a scrubbed record gets no credentials back; any other takes over what a readable auth secret holds |
| Sessions.ResourcesMerged | cmd/session_helpers.go:481-486 | the resources are those of a deployment that could be read |
| Sessions.MergeIdempotent | cmd/session_helpers.go:434-496 | merging the same remote state again changes nothing |
| Sessions.AutomaticKeepsStopped | cmd/daemon.go:288-371 | no write of a merge or of a worker, however old the record it read, turns a stopped record into another state |
| Sessions.StoppedEvent | cmd/daemon.go:288-371 | the same for one step, whatever old record a worker is about to write |
| Sessions.WorkersWrite | cmd/daemon.go:288-371 | what a worker writes stays a record of the daemon, and a stopped one is not written over |
| Sessions.WorkerStops | cmd/daemon.go:288-320 | a worker stops a record without a secret, unless it is stopped or gone |
| Sessions.StoppedIsSticky | cmd/daemon.go:288-371 | over every stretch of a run of store operations, merges and worker steps without a command for that tunnel or its entry, a stopped record stays stopped |
| Sessions.ZeroPidToken | pkg/session/session.go:715-729 | the exact condition under which a written record with PID 0 has an empty start token |
| Sessions.ZeroPidTokenFails | pkg/session/session.go:715-729 | a save of a running record over its scrubbed entry that leaves PID 0 with a start token |
| Sessions.ReturnedIsWritten | pkg/session/session.go:166-196 | the exact condition under which the record written is the one handed in, up to stamps and start token |
| Sessions.ReturnedIsNotWritten | pkg/session/session.go:166-196 | an atomic update that returns a record with its secret and writes one without |
| Daemon.FingerprintInjective | cmd/daemon.go:202-227 | equal fingerprints of sessions with NUL-free fields and validated routes mean the same control host, target, routes, expiry, user name and password hash and, if the JSON text determines it, the same access policy |
| Daemon.FingerprintDetermined | cmd/daemon.go:202-227 | the same forwarding inputs give the same fingerprint, so nothing else about a record restarts its worker |
| Daemon.DesiredSessions | cmd/daemon.go:58-90 | the desired map is keyed by tunnel id and holds exactly the daemon sessions that are not stopped, each as listed or as the clean-up of an expired one returned it |
| Daemon.InvStep | cmd/daemon.go:144-196 | every step of passes, workers and clean-ups keeps the registration invariant |
| Daemon.OneWorkerPerTunnel | cmd/daemon.go:144-196 | in every interleaving each worker inside `run` is the one registered under its tunnel id, so a tunnel has at most one |
| Daemon.ReapKeepsReplacement | cmd/daemon.go:184-192 | a finishing worker never removes another worker's registration |
| Daemon.ReleaseSettles | cmd/daemon.go:154-196 | when a pass releases the mutex every desired id is registered and every running worker that is not cancelled serves exactly the desired forwarding inputs |
| Daemon.ShutdownCancelsAll | cmd/daemon.go:97-107 | at shutdown every worker that has not finished is cancelled |
| Daemon.Reconciler.ReconcileDaemonWorkers | cmd/daemon.go:144-196 | the pass as written, with workers returning at any point in between, is a run of the state machine from its beginning to its end; it cancels no worker that is wanted as it is, starts what is missing, and leaves every desired id registered |
| Daemon.Reconciler.Reap | cmd/daemon.go:184-192 | the deferred conditional delete |
| Locks.CompactSortedStrings | cmd/tunnel_lock.go:94-107 | the in-place read and write indices leave the compaction of the old contents in front |
| Locks.CompactedIsStrict | cmd/tunnel_lock.go:94-107 | compacting a sorted list gives a strictly increasing one with the same elements |
| Locks.InvStep | cmd/tunnel_lock.go:72-92 | taking, holding and releasing locks keeps every lock with at most one holder |
| Locks.BodyIsGuarded | cmd/tunnel_lock.go:72-92 | whatever runs inside the body holds the lock of every tunnel it asked for, and nobody else does |
| Locks.ReleasedInReverse | cmd/tunnel_lock.go:72-92 | each release gives back exactly the last lock taken |
| Locks.NoWaitCycle | cmd/tunnel_lock.go:72-92 | no reachable state has processes waiting for each other in a circle |
| Locks.NoDeadlock | cmd/tunnel_lock.go:72-92 | with any number of processes taking sorted tunnel locks and then possibly the store lock, an unfinished process means some process can step without a time-out |
| Objects.AdmittedIsUpToDate | pkg/k8s/client.go:691-753 | an object just written means what was sent, and compares as up to date exactly if it is no deployment with a container port protocol the server filled in |
| Objects.DeploymentNeverUpToDate | pkg/k8s/client.go:731-783 | on a server that fills in port protocols every deployment is out of date as soon as it is written: port 8080 is sent without a protocol and stored with TCP |
| Objects.MeetsButForPorts | pkg/k8s/client.go:731-742 | an object that means what is desired compares as up to date exactly if it is no deployment whose container ports differ as written |
| Objects.ServiceKept | pkg/k8s/client.go:886-934 | carrying the address over does not change the outcome of the service comparison, which reads a missing protocol as TCP |
| Objects.ResourceNameInjective | pkg/k8s/client.go:339-341 | different tunnels have different resource names |
| Objects.WhatMayBeTouched | pkg/k8s/client.go:1618-1720 | what a tunnel may delete: what carries its label, and secrets that name its certificate or issuer |
| Objects.WhenCertificateOwns | pkg/k8s/client.go:1636-1652 | the TLS secret belongs to the tunnel if its own certificate names it and the secret refers back |
| Objects.WhatIsAcceptable | pkg/k8s/client.go:182-223 | the requests that are not turned down before anything is written |
| Cluster.ApiServer.Create | pkg/k8s/client.go:460-463 | creation adds one object under a key that was free right before the write, also with other writers |
| Cluster.ApiServer.Update | pkg/k8s/client.go:471-489 | an update goes through only if the object just read is still there right before the write, and replaces nothing else |
| Cluster.ApiServer.DeleteIf | pkg/k8s/client.go:1618-1634 | deletes only an object that passes the ownership test right before the deletion, and nothing else |
| Cluster.OutsideIsSpared | pkg/k8s/client.go:350-363 | what the operations keep is that each object the tunnel may not touch is as it was and no other such object appeared |
| Cluster.EntitledSpares | pkg/k8s/client.go:350-363 | a step the tunnel is entitled to changes no such object, wherever it is |
| Cluster.Isolation | pkg/k8s/client.go:350-363 | over every recorded history, an object labelled as the tunnel's own that other writers leave alone and that names no other tunnel as its cert-manager owner stays as it is |
| Cluster.NameCollisions | pkg/k8s/client.go:335-363 | the derived object names of two tunnels meet exactly in the suffix cases |
| Tenants.RunCommand | pkg/k8s/client.go:350-363 | one operation, successful or failed, with its rollback or after a rollback that failed, changes no object the tunnel may not touch wherever nobody else writes |
| Tenants.RunCommands | pkg/k8s/client.go:350-363 | after any sequence of ensure, configure, clear, scale and cleanup by any tunnels, an object labelled as another tunnel's is as it was: where nobody else writes, and wherever the recorded other writers left it alone |
| Tenants.EnsureTwice | pkg/k8s/client.go:181-333 | ensuring twice: the second time writes at most the deployment, and nothing exactly on a server that leaves port protocols empty |
| Kubernetes.Client.EnsureAuthSecret | pkg/k8s/client.go:417-493 | creates or replaces only its own secret, keeps an existing salt, and remembers the replaced and the written secret |
| Kubernetes.Client.RestoreAuthSecret | pkg/k8s/client.go:495-516 | puts the previous secret back only over the one that was written |
| Kubernetes.Client.EnsureDeployment | pkg/k8s/client.go:525-689 | leaves a deployment that means what is requested or changes nothing; it writes nothing exactly when the one found does and its ports are as sent, what it writes owes nothing to the one found, and where every call gets through it fails exactly over an invalid image or resources or a deployment of somebody else |
| Kubernetes.Client.ApplyService | pkg/k8s/client.go:886-911 | the same for a service, keeping the address and node ports it had |
| Kubernetes.Client.ApplyIngress | pkg/k8s/client.go:1237-1254 | the same for the ingress |
| Kubernetes.Client.ApplyDynamicResource | pkg/k8s/client.go:1388-1403 | creates or overwrites the tunnel's own issuer or certificate |
| Kubernetes.Client.DeleteIfManaged | pkg/k8s/client.go:1721-1778 | removes exactly an object labelled as the owner's |
| Kubernetes.Client.DeleteSecretIfOwned | pkg/k8s/client.go:1618-1652 | removes exactly a secret labelled as the owner's or owned by its certificate |
| Kubernetes.Client.CleanupCreated | pkg/k8s/client.go:1899-1926 | removes from the back and stops at the first error; what is left is known |
| Kubernetes.Client.RestoreDynamicResource | pkg/k8s/client.go:1567-1604 | a snapshot is put back, or the tunnel's own object is removed if there was none |
| Kubernetes.Client.ValidateCustomDomainSecretSlot | pkg/k8s/client.go:1405-1424 | an existing TLS secret is the tunnel's own or owned by its certificate |
| Kubernetes.Client.EnsureCustomDomainResources | pkg/k8s/client.go:1276-1308 | issuer and certificate as requested, or a failure after which only the tunnel's own issuer may differ |
| Kubernetes.Client.Provision | pkg/k8s/client.go:256-332 | at every exit the compensation log accounts for every difference to the start; at a successful one everything requested is there and the reported port is the cluster's |
| Kubernetes.Client.EnsureTunnelWithOptions | pkg/k8s/client.go:181-333 | with other writers and after any failure nothing the tunnel may not touch changes; alone, success means provisioned, repetition writes at most the deployment, and that exactly when its stored ports were filled in, and a failure rolled back without error leaves nothing new and the secret, issuer and certificate with their old contents; where every call gets through it succeeds exactly if the request is acceptable and nobody else's object is in the way, and otherwise always rolls back without error |
| Kubernetes.Client.Rollback | pkg/k8s/client.go:231-254 | every part is attempted; without errors each object ends where the compensation log says |
| Kubernetes.Client.Undo | pkg/k8s/client.go:231-254 | takes back a transaction in progress; where every call gets through it reports no error |
| Kubernetes.Client.ConfigureCustomDomain | pkg/k8s/client.go:1455-1507 | as ensure, for issuer, certificate and ingress of an existing tunnel, also when the rollback fails; where every call gets through it succeeds exactly if the tunnel is there and nobody else's object is in the way |
| Kubernetes.Client.ClearCustomDomain | pkg/k8s/client.go:1509-1531 | the ingress without the domain, and exactly the tunnel's own domain resources gone; after a failure nothing the tunnel may not touch has changed |
| Kubernetes.Client.CleanupTunnel | pkg/k8s/client.go:1882-1897 | exactly the disposable objects are gone and nothing else changed; after a failure nothing the tunnel may not touch has changed |
| Kubernetes.Client.ScaleTunnel | pkg/k8s/client.go:1831-1873 | sets the replica count of the tunnel's own deployment and nothing else |
| Kubernetes.Client.TunnelRemoteState | pkg/k8s/client.go:1993-2047 | the state read from deployment, services, ingress and auth secret in this order, or an error at the first that is not the tunnel's |
| Transactions.Advance | pkg/k8s/client.go:256-280 | each forward step extends the account of what happened |
| Transactions.FreeKept | pkg/k8s/client.go:256-312 | a transaction in progress neither frees a key that somebody else occupies nor blocks one |
| Transactions.CoreRepeated | pkg/k8s/client.go:256-280 | a second ensure finds secret and service in place and writes the deployment exactly when its ports were filled in |
| Transactions.DeploymentWritten | pkg/k8s/client.go:663-688 | a deployment that was written serves the request, and its ports tell whether the server fills them in |
| Transactions.StaleRemoved | pkg/k8s/client.go:290-294 | removing a stale TCP service keeps the account |
| Transactions.DomainAdvance | pkg/k8s/client.go:296-312 | so do the snapshots and the custom-domain step, also when it fails half-way |
| Transactions.DomainFailed | pkg/k8s/client.go:1296-1302 | after a failed certificate only the tunnel's own issuer may differ, whether or not its clean-up worked |
| Transactions.CleanedUpAt | pkg/k8s/client.go:1899-1926 | cleaning up removes every created object and touches no other |
| Transactions.UndoneIsRolledBack | pkg/k8s/client.go:231-254 | undoing whatever the account says brings back the start, except for in-place changes of deployment, services and ingress and a removed stale TCP service |
| Transactions.SecretStillApplied | pkg/k8s/client.go:495-516 | the replaced secret is still in place when the rollback comes to it |
| Transactions.PublicPortGiven | pkg/k8s/client.go:318-328 | a server that gives out node ports gives the TCP service one |
| Transactions.ClearedStepByStep | pkg/k8s/client.go:1654-1679 | the deletions in their order remove exactly the disposable domain resources |
| Transactions.ClearComplete | pkg/k8s/client.go:1509-1531 | the ingress step and the four deletions together leave the ingress without the domain and exactly the disposable domain objects gone |
| Transactions.AllCleared | pkg/k8s/client.go:1786-1816 | followed by the core resources they remove exactly the disposable objects |
| Transactions.WhenAccountKeyGoes | pkg/k8s/client.go:1681-1707 | the ACME account key goes with an issuer of the tunnel that names it, if the secret is the tunnel's or was made for the issuer |
| Transactions.EnsureThenCleanup | pkg/k8s/client.go:1882-1897 | cleaning up a tunnel that had nothing before it was ensured brings every object back |
| ServerView.ProvisionedServerIsTold | pkg/k8s/client.go:533-604 | in a provisioned tunnel the server reads, through the flags of the stored deployment, the variables they name and the stored secret, exactly the requested secret, trimmed user name, password hash, policy, protocol, port and target |
| ServerView.ProvisionedServerIsReached | pkg/k8s/client.go:939-961 | the services select the pods of the deployment and lead to ports their container opens, the HTTP one to the port the server is told to listen on |
| ServerView.ProvisionedShape | pkg/k8s/client.go:525-620 | one replica, an opaque secret, an HTTP service inside the cluster and a public TCP service for raw tunnels, under the labels of the tunnel |
| ServerView.ExposedPaths | pkg/k8s/client.go:1024-1032 | an HTTPS tunnel exposes every path, any other nothing but the endpoints of the server |
| ServerView.ControlPathsExposed | pkg/k8s/client.go:1024-1032 | every tunnel exposes the endpoints the client connects to |
| ServerView.DomainIsServed | pkg/k8s/client.go:1191-1225 | a custom domain is served by a rule whose TLS secret is the one its certificate is written to |
| ServerView.DigestTextInjective | pkg/k8s/client.go:397-411 | equal digest texts of NUL-free configurations mean equal secret, target, login and policy |
| ServerView.ChangeIsNoticed | pkg/k8s/client.go:691-704 | a changed secret, target, login or policy puts the deployment out of date, if the digest tells texts apart |
| RemoteState.DeploymentArgValue | pkg/k8s/client.go:2144-2155 | the trimmed value after the first occurrence of the flag |
| RemoteState.PortWithoutProtocol | pkg/k8s/client.go:2049-2078 | without a deployment that tells the protocol, the public port is that of the HTTP service, else that of the TCP service |
| RemoteState.FirstPortFound | pkg/k8s/client.go:2066-2071 | the public port of a service is its first node port |
| RemoteState.HostNormalized | pkg/k8s/client.go:1137-1139 | case and one trailing dot of a host name do not matter |
| RemoteState.EnsuredIsReadBack | pkg/k8s/client.go:1993-2047 | reading after a successful ensure gives protocol, port, target, hosts, public port, credentials and policy of the request, trimmed |
| RemoteState.CredentialsReadBack | cmd/session_helpers.go:467-480 | merging credentials that were written and read back changes nothing exactly when they survive trimming, the login is enabled and the policy is not empty |
| RemoteState.EnsuredRecordAgrees | cmd/session_helpers.go:434-496 | the exact condition under which the whole record of a tunnel just ensured is left alone by a merge of its remote state |
| RemoteState.EmptyPolicies | pkg/accesspolicy/access_policy.go:82-92 | the policies that allow everything |
| RemoteState.EmptyPolicyIsLost | pkg/accesspolicy/access_policy.go:82-92 | an access policy that allows everything is not sent and is taken away by the merge |
| RemoteState.SecretOnlyReadBack | pkg/k8s/client.go:2080-2109 | a state read without error from a cluster whose auth secret is gone or as ensured leaves surviving credentials alone |
| Reapply.ReuseExistingTemporaryTokenExpirations | cmd/apply.go:899-922 | each link with a duration takes the expiry of the last live stored token of the same identity |
| Reapply.ReuseExistingExpiration | cmd/apply.go:889-897 | the tunnel's expiry is reused for the same duration while it is not over |
| Reapply.IdentityInjective | cmd/apply.go:924-926 | the identity tells name, hash and duration apart, whatever characters the name has |
| Reapply.FirstApply | cmd/apply.go:525-556 | a first apply leaves a record built for the item |
| Reapply.ReappliedIsBuiltFor | cmd/apply.go:870-922 | whatever record an item is applied over, the record written has the policy, durations and login of the item: its password checks against the hash stored |
| Reapply.ReappliedIsLive | cmd/apply.go:889-922 | no expiry time written by an apply has been reached: an old one is taken over only while it lasts |
| Reapply.ExpiryReapplied | cmd/apply.go:889-897 | the tunnel's expiry stays while it lasts and the duration is the same, and counts from now otherwise |
| Reapply.LastMatchIsLast | cmd/apply.go:903-912 | the token found is the last unexpired one of its identity |
| Reapply.AppliedRecordAgrees | cmd/apply.go:440-556 | the record of an apply is left alone by a merge of the state read back from the cluster it provisioned exactly when nothing in it is lost on the way |
| Reapply.AppliedIsDesirable | cmd/apply.go:525-556 | the daemon starts a worker for every record an apply writes |
| Reapply.ReapplyKeeps | cmd/apply.go:870-922 | applying again before the expiries keeps expiry times, access policy and password hash |
| Reapply.ReadInSync | cmd/session_helpers.go:413-432 | a state read back from the cluster the record was written for agrees with the record |
| Reapply.HarmlessStep | cmd/daemon.go:288-371 | a worker step, a merge of what was read back from the cluster, a scrub or a write for another tunnel keeps what the next apply looks at |
| Reapply.ReapplyingMovesNothing | cmd/apply.go:870-922 | so does applying any number of times, with any run of the store in between whose merges read the credentials back from the cluster and whose other steps are worker steps or concern other tunnels |
| Reapply.DiffTunnel | cmd/apply.go:1093-1138 | the reported lines are exactly the differing fields |
| Reapply.AddressLines | cmd/apply.go:1093-1114 | the address lines on the fields themselves, with the defaults of records without a target or a protocol, and routes compared by what they dispatch |
| Reapply.PolicyLines | cmd/apply.go:1115-1127 | the policy lines: the login by presence, user name and password |
| Reapply.DiffCleanIffAttached | cmd/apply.go:1093-1138 | after any such run since the apply, with merges of a cluster that stands as the record says, the diff reports nothing if the requested domain was attached and only the domain otherwise |
| Apply.ValidateNames | cmd/apply.go:282-304 | accepts exactly distinct allowed tunnel names, each with distinct link names |
| Apply.ReservedNames | cmd/apply.go:935-947 | the names that begin with mesh and a dash are refused |
| Apply.ValidateLinkNames | cmd/apply.go:294-302 | accepts exactly pairwise different link names |
| Apply.RefreshLocked | cmd/session_helpers.go:413-432 | the entry is untouched or holds the captured merged record |
| Apply.RollbackExisting | cmd/apply.go:613-622 | success means the previous record is stored again |
| Apply.ApplyOneTunnel | cmd/apply.go:345-523 | touches only its own entry; it succeeds exactly if the fields, the scope, the refresh, the secret, the CNAME, provisioning and the save are in order; success stores the record its item asks for, with a login its password checks against and the old secret and creation time, and remembers the captured one; a failure reports nothing further exactly if the cluster was not touched, there was no tunnel before, or it was restored, and then leaves the entry untouched or as captured |
| Apply.RollbackResults | cmd/apply.go:624-663 | going back over the results, last first, reports no error exactly if every part worked, and then leaves every applied session exactly as captured and every new one gone |
| Apply.RunApply | cmd/apply.go:211-233 | a batch succeeds exactly if its names are valid, every item applies, the daemon starts and every tunnel connects; one that fails anywhere, with no rollback error and no other writer, leaves the same set of sessions: applied ones equal to their captured record up to stamps and start token, the failing one untouched or as captured, the later ones untouched |
| Apply.NotesKept | pkg/session/session.go:326-359 | saves keep scrubbed records clean and noted, which is what the batch asks of the store |
| Server.BalancedStep | pkg/tunnel/server.go:157-198 | one step of a call keeps its books of slot and stream |
| Server.OpenedIsHandedOver | pkg/tunnel/server.go:176-197 | a stream opened for a caller still waiting is the one it gets, and one opened for a caller that left is closed |
| Server.StreamsAndSlots | pkg/tunnel/server.go:157-198 | in every interleaving at most 128 openers are in flight, each stream is delivered or closed exactly once by the end, each slot is given back exactly once |
| Server.NoOpenerStuck | pkg/tunnel/server.go:168-192 | an opener whose caller has left can always move on, and giving a slot back never blocks |
| Server.AuditLog.Record | pkg/tunnel/server.go:462-470 | the ring read from its start is the newest 1000 of all events recorded |
| Server.AuditLog.Payload | pkg/tunnel/server.go:472-496 | the payload is the cutoff filter of that sequence cut to the newest `limit`, the total its filtered length |
| Server.FilterRing | pkg/tunnel/server.go:476-490 | the index loop over the ring filters it in order |
| Server.FilteredMembers | pkg/tunnel/server.go:476-487 | exactly the events at or after the cutoff are kept |
| Server.RingAdvance | pkg/tunnel/server.go:462-470 | overwriting the start and advancing it drops the oldest event |
| Relay.RelayOutcome | pkg/tunnel/relay.go:19-60 | in every schedule at most two results are taken, no goroutine blocks, and the value returned is the first unexpected error in arrival order with both connections closed, or nil after two clean ends |
| Relay.RelayBidirectional | pkg/tunnel/relay.go:27-49 | the loop as written is a run of the state machine; it returns the first unexpected error and closes both connections exactly then |
| Relay.FirstFailureAppend | pkg/tunnel/relay.go:27-49 | a later result never displaces an earlier failure |
| RequestLog.Log.Add | pkg/tunnel/request_log.go:54-65 | numbers are consecutive and the log keeps the newest 200 entries |
| RequestLog.Log.List | pkg/tunnel/request_log.go:68-79 | the newest entries, newest first, cut to a positive limit |
| RequestLog.Follow | cmd/requests.go:84-114 | the loop over the polls prints exactly what is new at each poll and still in the log |
| RequestLog.FollowOnce | cmd/requests.go:90-108 | one poll prints the unseen entries oldest first and remembers the last number |
| RequestLog.PrintedIncreasing | cmd/requests.go:84-114 | printed numbers are strictly increasing, so none is printed twice, and each entry is the logged one |
| RequestLog.CompleteIffSmallGaps | cmd/requests.go:84-114 | nothing is missing exactly when at most 200 entries arrive between consecutive polls |

## Left out

- `ParseRateLimit` and the other policy parsing and validation: only straightforward members.
- Saturation of durations and wrap-around of the 64-bit request counter: out of reach of real times and counts.
- Lower-casing is modelled for ASCII letters, strings are sequences of Unicode characters, and bytes that are not valid UTF-8 do not occur.
- Session files in the old plaintext form, file permissions, symbolic links and the temporary file behind an atomic rename: a file is undecryptable, not a record, or a record.
- Session records are grouped into sub-records by who writes the fields; the JSON form is not modelled.
- API calls whose effect happened although an error was reported: a failing call has no effect here, so neither rollback nor isolation says anything about them. Steps of other writers are recorded without their author.
- OverflowBurst.OverflowBoundIsTight: windows shorter than the pruning interval of one second; the bound itself holds for them too.
- Deletes read, check and delete in one step; the code reads first and deletes without a version precondition.
- What the API server fills into a deployment, other than port protocols, is one string the comparison does not look at; what it fills into issuers, certificates and secrets, and the status of issuers and certificates, are not modelled; the fixed ingress annotations are a parameter.
- `UpdateTunnelResources`, `CleanupManaged` and the readiness waits: they use the same checks on one object.
- Kubernetes.Client.EnsureTunnelWithOptions: rollback claims nothing about in-place changes of deployment, services and ingress or about a removed stale TCP service, because the code does not undo them; the repetition claim leaves out custom domains, because issuer and certificate are written every time.
- Kubernetes.Client.ConfigureCustomDomain: whether its rollback failed is a ghost result, because the code drops those errors.
- Apply.ValidateNames: an item carries its name without surrounding white space, as the code trims it before every use.
- Apply.RunApply: the remote side of each item is a recorded outcome rather than a run of the cluster model, and clocks are read once per write.
- Reapply.DiffCleanIffAttached: effective resources and the JSON of a policy are functions of the configuration; a cluster somebody changed in between is not covered.
- RemoteState.EnsuredIsReadBack: that the checks before an ensure leave host names in normal form and a port of digits is a premise (`Validated`), and JSON is taken to come back as it was written.
- Locks.CompactSortedStrings: sorting itself is a library call; its result is taken as any sorted list.
- Relay.RelayBidirectional: byte counting and the half-close of a finished direction are not modelled.
- The daemon heartbeat, its launch and runtime lock files, and the foreground connect callback of `expose`, which updates a record it read without comparing: what it writes counts as a command for its tunnel in the claim about the stopped state.
- ServerView.ProvisionedServerIsTold: flags are read as pairs after the command name, as the client writes them; the server's own flag library and its checks are not part of this model.
- ServerView.DigestTextInjective: a NUL inside a password hash or a policy is not covered; the keyed hash itself is a parameter.
- Commands, prompts, printing, the web console, login, DNS, HTTP, WebSocket, yamux and TLS.
