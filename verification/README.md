# Tinkerbell lifecycle controllers: a verified model

This project models, in Dafny, the three controllers of the repository that change
shared state, and proves what they promise over whole runs.

**The teardown controller** (`internal/teardown`) runs once per Cluster API Machine: it
stamps a pre-terminate hook, waits for the machine controller's gate, anchors a deadline,
lets one control-plane Machine at a time through, removes its etcd member after verifying
it is there, resets the node, and releases the hook. All durable state is four annotations.

- `Protocol` is one reconcile as a process with one pending request at a time; `Advance`
  says what it does with each reply. `System` puts any number of such reconciles into a
  transition system: stored Machines, the Cluster, etcd members, a clock, a work queue
  with its back-off, other writers who may act between any two calls, and crashes that
  cut every reconcile off at any call. Talos may answer anything, and any call may take
  effect with its acknowledgement lost; a patch reported as failed may have landed.
- `Teardown.Reconciler` is the controller's code as methods over a mutable Machine copy
  and a `World` that interferes before every call. Each method is proved to make exactly
  the call the protocol has pending and to end where the protocol continues, so everything
  one reconcile does is a run of `System`, and each of its prefixes, crash included, is
  one, too. Connections are objects: closing one twice, or leaving one open, does not verify.
- `PhaseOrder`, `Stamps`, `Attempt`, `Membership`, `Serialization` and `FailOpen` prove
  the theorems about all runs of `System`. `Gates` and `Calls` say in terms of a Machine's
  fields, of requests and of replies when the controller acts, what stands behind every
  call it makes, and why a reconcile ends; `Hosts` says whose an etcd member is. They do
  not use the predicates the protocol is written with, and so pin those down.

**The hardware janitor** (`internal/janitor`) and **the discovery syncer**
(`internal/sync`) write the same Hardware objects as CAPT and the workflow controller.
`HardwareStore` is one versioned store with all of these writers; every read may return
any past version of the object. `Writers` holds the code of the two controllers: each
method says what it read, what it sent and on which state that was carried out, and any
call of either may fail.

**Credentials, names, defaults.** `Credentials` is the talosconfig cache with its
refresh and sweep, `Names` the resource names, `Defaults` the credential list that the
chart prints and the controller parses.

Assumptions, all stated in the definitions: reads of the teardown controller are current
and one Machine is not reconciled twice at once; a patch is a key-wise merge of the
difference between the copy before and after; nobody else edits the controller's four
keys, undoes a deletion, or turns a worker into a control-plane Machine or the other way
round (`System.MayPut`); a Machine is not removed in the middle of its own reconcile.
Timestamps go through any codec that reads a whole second back as itself (RFC 3339
section 5.6). `Membership.Faithful` says what is assumed of Talos for
the membership theorems only; `FailOpen.Timely` says what is assumed of time and of the
API server for the real-time bound only.

What the proofs brought up, where code and documentation differ:

- "One etcd operation at a time per cluster" holds while newly deleted Machines sort
  after those past the hold, and that order is exact: without it someone past the hold
  is held by a newcomer (`OrderIsExact`). The check lets through exactly whom no stored
  Machine holds (`CheckPassesExactly`), so in every reachable state of a live cluster whoever
  waits unheld can get past beside another (`UnheldGetsPast`). A Machine deleted within the
  same second under a smaller name gets past the hold beside the one already through
  (`TieGetsPast`), and so does a longer-deleting Machine that receives its hook late, from
  the controller itself (`LateStampGetsPast`).
- Leftover hooks are swept by what the reconcile's copy saw. If another controller took
  the key over meanwhile, its hook is deleted all the same (`ReplacedLeftoverIsDeleted`);
  `PreservedExactly` says over whole runs which annotations are lost that way, and
  `ReleaseOpensGate` gives the exact condition under which the release leaves no hook.
  A comment calls the patch optimistic-concurrency; the model takes it as unguarded.
- A discovery sync whose inventory reports no MAC leaves the interfaces out, and where
  discovery is their only owner the apply removes them; the next sync with a MAC then arms
  PXE on a machine that was off (`RearmsAfterDrop`). `StaysDisarmedExactly` shows that
  this is the only way, and `DiscoveryNeverRearms` that reporting a MAC rules it out.
- Cached secret names collide exactly when one namespace extends another by a dash and
  text that starts the other cluster's name (`CollidesExactly`), and every such pair has a
  run in which a live cluster loses its copy (`CollidingNamesLoseCopy`); dash-free
  namespaces are enough (`DashFreeCopySurvives`).
- A refresh reads the source before the copy, and its guard is on the copy alone: a slow
  worker can put older bytes back (`StaleReadGoesBack`). The recorded version never goes
  back if and only if no refresh writes what it read of the source over a copy it read of a
  newer version (`GrowsExactly`); refreshes that write what is still the present source
  never do (`RecordedVersionGrows`).
- A resource name that falls back to the address is a valid label only up to 59 remaining
  characters; IPv4 addresses always fit (`ResourceNameIsLabel`, `IPv4AlwaysNamed`).
- The documented worst case for a dead node is its reset deadline. Giving up is stamped
  only behind an attempt that failed past that deadline (`StampsHaveEvidence`), so a
  node whose every reset fails is released after it; the proved bound adds one back-off and one attempt, and a
  hold and an attempt per Machine ahead in line (`ReleasedInTime`).

## Model

| member | source | states |
|---|---|---|
| `Teardown.Reconciler.Reconcile` | internal/teardown/reconciler.go:56-68 | one reconcile adds a run of the system that starts by picking the Machine up, ends idle and due as the returned outcome says, and leaves no connection open; of a Machine that is gone nothing is done |
| `Teardown.Reconciler.EnsureHook` | internal/teardown/reconciler.go:95-112 | stamps the hook and sweeps leftovers exactly when the hook is absent and stamping is allowed, else changes nothing |
| `Teardown.Reconciler.ReconcileDeleting` | internal/teardown/reconciler.go:115-163 | the gates and phases in the protocol's order, ending with the outcome the queue acts on |
| `Teardown.Reconciler.EnsureObservedAt` | internal/teardown/reconciler.go:167-181 | the readable stamp, else the truncated present, stamped before it is used |
| `Teardown.Reconciler.Release` | internal/teardown/reconciler.go:208-228 | hook and leftovers go in one patch |
| `Teardown.Reconciler.PatchAnnotations` | internal/teardown/reconciler.go:233-247 | sends the merge patch of the copy's change; the copy has it whatever the answer |
| `Teardown.Reconciler.EtcdPhase` | internal/teardown/reconciler.go:266-289 | skipped when concluded, concluded at once on cluster delete, absent for workers, else held or attempted |
| `Teardown.Reconciler.SerializeControlPlane` | internal/teardown/reconciler.go:294-310 | the loop holds the Machine exactly when some listed one precedes it |
| `Teardown.Reconciler.TryEtcdRemoval` | internal/teardown/reconciler.go:367-398 | verify-then-act through peer and victim, every connection closed on every path |
| `Teardown.Reconciler.FindHealthyPeer` | internal/teardown/reconciler.go:406-451 | candidates in order, the first healthy one returned connected, all others closed |
| `Teardown.Reconciler.LeaveViaVictim` | internal/teardown/reconciler.go:484-516 | true only on an acknowledged leave; any failure leads to removal through the peer |
| `Teardown.Reconciler.ResetPhase` | internal/teardown/reconciler.go:526-556 | skipped when concluded; stamped with its conclusion, or retried before the deadline |
| `Teardown.Reconciler.TryReset` | internal/teardown/reconciler.go:560-596 | address, credentials, dial and reset in this order, with their failure outcomes |
| `Teardown.Reconciler.ListHostnameCandidates` | internal/teardown/etcd.go:20-35 | the loops compute the non-empty candidates, the first host name overriding the node's |
| `Teardown.Reconciler.FindListedMember` | internal/teardown/etcd.go:54-66 | the nested loops find the first match in response order, and nothing in an absent response |
| `Teardown.Reconciler.ListLegacyHookKeys` | internal/teardown/qualify.go:92-103 | exactly the prefixed keys with the controller's value other than its own key |
| `Gates.GatesMean` | internal/teardown/qualify.go:20-86 | parked at the wait, past it, hooked by others, and the controller's own are what the Machine's conditions, annotations and references say, by the first true Deleting condition |
| `Gates.ReadLeadsTo` | internal/teardown/reconciler.go:56-145 | what becomes of every Machine read, by its fields: nothing, the hook, the credentials, a later look, the time of entry, or the Cluster |
| `Gates.CredentialsLeadTo` | internal/teardown/reconciler.go:125-145 | a live Machine is done, a deleting one with a late hook takes its turn like any other |
| `Gates.ClusterLeadsTo` | internal/teardown/reconciler.go:185-206 | a Cluster missing or going: the etcd phase is stamped as skipped at once, for control plane and workers; else workers reset and control-plane Machines list their peers |
| `Gates.StampLeadsTo` | internal/teardown/reconciler.go:152-163 | each landed stamp leads to the next phase, and the release removes hook and leftovers alone |
| `Gates.ActsOnlyInTurn` | internal/teardown/reconciler.go:115-141 | over every run, anything but stamping the hook and refreshing credentials is done only to a deleting, hooked Machine parked at the wait with no other controller's hook |
| `Calls.EveryCallHasGrounds` | internal/teardown/reconciler.go:266-596 | over every run, each pending request follows on the answers it needs, from the listing with nobody ahead to the resolved, configured and dialled victim of a reset; listings, membership calls and etcd conclusions only in a Cluster read as there |
| `Calls.EndsForAReason` | internal/teardown/reconciler.go:115-163 | a reconcile ends done after the release or before its turn, waits only behind hooks or Machines ahead, and fails only for an unusable answer within its deadline |
| `Hosts.CandidatesExact` | internal/teardown/etcd.go:20-35 | the candidates are the node's name, the infrastructure Machine's and the Machine's own, without empty ones |
| `Hosts.MatchesExactly` | internal/teardown/etcd.go:42-51 | a member is the Machine's if and only if one of its names has the same first label, but for case |
| `Hosts.FindMemberExact` | internal/teardown/etcd.go:54-66 | the member found is the first of the response that is the Machine's, none if and only if none is |
| `Machines.MergeDiff` | internal/teardown/reconciler.go:233-247 | landing a patch on the map it was computed from gives the intended map |
| `Machines.MergeDiffAt` | internal/teardown/reconciler.go:230-247 | on any other map, keys the patch does not change keep their stored value |
| `Machines.FirstMatchFinds` | internal/teardown/etcd.go:54-66 | a member is found exactly when one matches, and it matches |
| `Machines.MatchIgnoresDomainAndCase` | internal/teardown/etcd.go:42-51 | domain and letter case never decide whether a member is the victim's |
| `Protocol.BackoffRange` | internal/teardown/setup.go:39-40 | the retry delays are 5s, 10s, 20s, then 30s for good |
| `PeerOrder.SortByAge` | internal/teardown/setup.go:105-112 | in place, oldest first with ties by name |
| `PeerOrder.ListPeersInOrder` | internal/teardown/reconciler.go:461-479 | the filtering loop and the two sorts compute the specified order |
| `PeerOrder.OrderPeersOrders` | internal/teardown/reconciler.go:461-479 | exactly the eligible machines, node-ref holders first, each group strictly ascending |
| `PeerOrder.PeersExactly` | internal/teardown/reconciler.go:461-479 | the same said of names, deletion, leaving mark, node reference and creation |
| `PeerOrder.OrderPeersCanonical` | internal/teardown/reconciler.go:461-479 | the order does not depend on the order of the listing |
| `PhaseOrder.CrashRestarts` | internal/teardown/reconciler.go:249-251 | a crash after any event of any run leaves a state where runs may start, with the same Machines, Cluster and members stored |
| `System.EnvironmentIsFree` | internal/teardown/reconciler.go:230-253 | every call may fail with or without effect, Talos may answer anything, and crashes and changes come at any time |
| `PhaseOrder.RunKeepsInv` | internal/teardown/reconciler.go:115-163 | over every run each reconcile's copy agrees with the stored stamps and its stage with its gates |
| `Stamps.RunIsLater` | internal/teardown/reconciler.go:116-128 | stamps are write-once; the hook goes only behind a reset stamp and never returns |
| `Stamps.CrashSafePhaseOrder` | internal/teardown/reconciler.go:266-289 | no membership call behind an etcd stamp, no reset behind a reset stamp, no reset stamp on a control-plane Machine without an etcd stamp |
| `Stamps.BoundedWrites` | internal/teardown/reconciler.go:95-128 | writes made plus writes left never exceed writes due, at most five in any run |
| `Stamps.ReleasedIsFinal` | internal/teardown/reconciler.go:116-128 | after release every further reconcile changes neither the Machine nor etcd |
| `Stamps.DeadlineStable` | internal/teardown/reconciler.go:167-181 | all reconciles of a Machine measure from the same moment, across restarts |
| `Stamps.OnlyWholeSecondsSurvive` | internal/teardown/reconciler.go:175-181 | a timestamp reads back as itself exactly if it was truncated |
| `Stamps.ForeignAnnotationsPreserved` | internal/teardown/reconciler.go:230-247 | other annotations, other controllers' hooks included, end as the other writers alone would have left them, as long as nobody leaves this controller's value under the hook prefix |
| `Stamps.PreservedExactly` | internal/teardown/qualify.go:89-103 | over every run, an annotation that is not the controller's own is preserved if and only if no patch sweeps it as a leftover its copy saw |
| `Stamps.PreTerminateKeyAfterPatch` | internal/teardown/reconciler.go:95-105 | another hook key is touched only by deleting it, exactly when the copy saw the controller's value there |
| `Stamps.ReleaseOpensGate` | internal/teardown/reconciler.go:208-220 | no hook remains after the release if and only if every stored one was own or a leftover in the copy |
| `Stamps.ReplacedLeftoverIsDeleted` | internal/teardown/qualify.go:89-103 | a leftover key another controller took over is deleted with its new value |
| `Attempt.VerifyThenAct` | internal/teardown/reconciler.go:367-451 | a leave or removal is preceded, in the same reconcile, by a member list with that id from an eligible, healthy peer; the candidates are the listing in its order, and all before that peer failed |
| `Attempt.StampsHaveEvidence` | internal/teardown/reconciler.go:329-349 | giving up is stamped only behind a failure past the deadline, a cluster delete only behind a Cluster read as going or gone, success only behind an acknowledgement or a verified absence |
| `Attempt.StampedTextsHaveEvidence` | internal/teardown/reconciler.go:321-398 | each text stamped as a conclusion has the evidence for that text: orphaned only if credentials, list or removal failed or every candidate did, past the deadline of the copy's own stamp |
| `Membership.NoWipeWhileMember` | internal/teardown/reconciler.go:321-398 | a control-plane node about to be wiped has no etcd member, or its stored stamp reads orphaned or skipped-cluster-delete |
| `Membership.OnlyOwnMemberRemoved` | internal/teardown/reconciler.go:381-398 | no reconcile removes another node's member |
| `Membership.ListedMember` | internal/teardown/etcd.go:37-66 | in a faithful list the match is the victim's own member, and no match means it has none |
| `Serialization.ExactlyOnePasses` | internal/teardown/reconciler.go:291-310 | on one listing exactly one of the deleting, hooked control-plane Machines passes: deleted before each other one, or in the same second under a smaller name |
| `Serialization.OneRemovalAtATime` | internal/teardown/reconciler.go:285-309 | over every run in which newcomers sort after whoever is past the hold, at most one Machine is past it with its etcd phase open, and at most one has a call to etcd pending |
| `Serialization.OrderIsExact` | internal/teardown/reconciler.go:291-310 | over every run, nobody past the hold is ever held by another Machine if and only if newcomers sort after those past it |
| `Serialization.CheckPassesExactly` | internal/teardown/reconciler.go:294-310 | the hold check lets a Machine past if and only if no stored one holds it |
| `Serialization.UnheldGetsPast` | internal/teardown/reconciler.go:285-310 | in every reachable state with one past the hold, any waiting Machine nobody holds can be taken past it beside that one |
| `Serialization.TieGetsPast` | internal/teardown/reconciler.go:304-307 | a Machine in service that is deleted in the same second under a smaller name gets past beside the one already through |
| `Serialization.LateStampGetsPast` | internal/teardown/reconciler.go:124-131 | with a late stamp two get past |
| `FailOpen.ReleasedInTime` | internal/teardown/reconciler.go:291-349 | whatever Talos does, the Machine of rank k is released by latest deadline + 30s + attempt + k (15s + attempt), an attempt being (2P+4) etcd calls and a reset |
| `FailOpen.TalosIsFree` | internal/teardown/reconciler.go:321-349 | the bound leaves every answer to a watched Machine's calls open that is not the API server's |
| `FailOpen.ClockMoves` | internal/teardown/reconciler.go:115-163 | the assumptions of the bound never block the clock: from every state they allow, finitely many allowed events lead to one where time may pass |
| `FailOpen.ClockIsTold` | internal/teardown/reconciler.go:24-24 | each call is given its timeout, an item waiting behind others comes back after 15s, and a failed one after its back-off |
| `FailOpen.PeersBounded` | internal/teardown/reconciler.go:461-479 | the peers to probe are at most the non-deleting control-plane Machines |
| `HardwareModel.HardwareObject.Scrub` | internal/janitor/scrub.go:39-75 | the in-place scrub computes the specified object and names exactly the changed fields |
| `HardwareModel.ClassifyTable` | internal/janitor/classify.go:53-71 | the class by owner labels, user data that is not all white space, and the provisioned mark |
| `HardwareModel.ChangesExact` | internal/janitor/scrub.go:39-75 | user data, operating system, state and each interface are reported exactly when they changed |
| `HardwareModel.ScrubExtinguishes` | internal/janitor/scrub.go:33-38 | a released object changes, becomes never-claimed, and a second scrub does nothing |
| `HardwareModel.ScrubTouchesOnly` | internal/janitor/scrub.go:33-75 | user data is cleared, and operating system and state if and only if asked for; only these, the parked flags and the stamp differ; no netboot block appears or disappears |
| `HardwareStore.JanitorHitsOnlyReleased` | internal/janitor/reconciler.go:65-79 | over every run and stale read, a written scrub hits an object released at that moment |
| `HardwareStore.WritesExactly` | internal/janitor/reconciler.go:65-79 | a guarded write goes through if and only if what was read is the live object, and released or managed |
| `HardwareStore.GuardIsNeeded` | internal/janitor/reconciler.go:65-73 | without the guard a stale scrub undoes a claim; with it nothing happens |
| `HardwareStore.ScrubsConserved` | internal/janitor/reconciler.go:60-80 | scrubs never exceed the times someone else filled in user data, plus one if it started filled |
| `HardwareStore.DiscoveryTouchesOnlyItsOwn` | internal/sync/syncer.go:108-154 | a discovery write creates an absent name or updates an object managed at that moment, leaving other writers' fields and the class alone, and the netboot block whenever a MAC is known |
| `HardwareStore.DiscoveryNeverRearms` | internal/sync/mapping.go:154-168 | PXE that is off stays off through every run in which nobody else switches it on and each sync knows a MAC |
| `HardwareStore.StaysDisarmedExactly` | internal/sync/mapping.go:138-168 | without the MACs, it stays off if and only if no sync without one prunes the interfaces |
| `HardwareStore.RearmsAfterDrop` | internal/sync/mapping.go:138-168 | a sync without a MAC and one with a MAC take a machine from off to armed |
| `DiscoveryMapping.UpdateKeepsForeignFields` | internal/sync/mapping.go:107-168 | user data, OS metadata and class survive; the netboot block survives if and only if there is one, or, without a MAC, the interfaces are not pruned |
| `DiscoveryMapping.CarryIsBuild` | internal/sync/syncer.go:83-92 | carrying the live netboot block afterwards is building with it |
| `DiscoveryMapping.InbandMACs` | internal/sync/mapping.go:180-200 | the loops keep exactly the valid reported MACs, each once, the primary first |
| `DiscoveryMapping.DesiredSays` | internal/sync/mapping.go:107-152 | an interface with the first valid MAC, which is then the identity, or none exactly if none is reported; each named drive; a valid vendor slug; nothing of other writers |
| `DiscoveryMapping.SyncShows` | internal/sync/mapping.go:107-168 | what an object shows after a sync, created or updated: name, owner label, stamps, enrolment, facility, identity, interface; armed if and only if it has an interface |
| `DiscoveryMapping.PrimaryMACExact` | internal/sync/mapping.go:170-200 | the primary MAC is that of the first port, by NIC, to report a valid one |
| `DiscoveryMapping.ValidMACExact` | internal/sync/mapping.go:37-38 | a MAC is valid if and only if it is six lowercase hex pairs joined by colons |
| `DiscoveryMapping.ResyncIsStable` | internal/sync/mapping.go:99-152 | applying the same inventory again to what was created or applied changes nothing, as long as nothing more is pruned |
| `Writers.Janitor.Reconcile` | internal/janitor/reconciler.go:27-86 | verdict and gauge follow the class read; a scrub is sent exactly for an object read as released, and writes exactly if that version is live, on an object released at that moment |
| `Writers.Syncer.ApplyManaged` | internal/sync/syncer.go:108-154 | skips exactly what was read unmanaged, else sends one create or conditional apply, which is a discovery step or changes nothing |
| `Credentials.RunAgrees` | internal/teardown/credentials.go:51-98 | over every run a copy's bytes are the source's bytes at the version it records |
| `Credentials.SameVersionSameBytes` | internal/teardown/credentials.go:83-84 | skipping the write at an equal version loses nothing |
| `Credentials.CredentialCache.Ensure` | internal/teardown/credentials.go:51-99 | unless a call failed or the write was refused, the copy ends with the bytes read of the source in this call; what is sent follows from what was read |
| `Credentials.CredentialCache.Config` | internal/teardown/credentials.go:103-117 | the live secret's configuration, the copy's exactly where there is no live secret; malformed, missing and failed calls told apart |
| `Credentials.CredentialCache.GC` | internal/teardown/credentials.go:121-148 | every copy listed during the call is checked, and collected then exactly if there is neither the Cluster nor a qualifying Machine of it, up to the first failed call; nothing else is sent |
| `Credentials.CopySurvives` | internal/teardown/credentials.go:121-172 | while its Cluster or a qualifying Machine of it is there, a cluster keeps its copy through a run if and only if no other cluster of the same cached name is swept or takes it over |
| `Credentials.GrowsExactly` | internal/teardown/credentials.go:51-98 | through every run, the recorded version never goes back if and only if each refresh had read of the source no less than the copy it read records |
| `Credentials.RecordedVersionGrows` | internal/teardown/credentials.go:51-98 | the recorded version never goes back while refreshes write the present source |
| `Credentials.StaleReadGoesBack` | internal/teardown/credentials.go:53-92 | a refresh with an older read of the source puts older bytes back |
| `Credentials.CollidesExactly` | internal/teardown/credentials.go:43-45 | two clusters share a cached name if and only if one namespace extends the other by a dash and the start of the other name |
| `Credentials.DashFreeCopySurvives` | internal/teardown/credentials.go:43-45 | dash-free namespaces make them distinct |
| `Credentials.CollidingNamesLoseCopy` | internal/teardown/credentials.go:121-148 | for every colliding pair a sweep that listed the other's copy deletes a live cluster's copy by name |
| `Names.SanitizeName` | internal/sync/names.go:55-73 | the loop with its dash flag computes the words of the name, dashed, cut and trimmed |
| `Names.SanitizedIsLabel` | internal/sync/names.go:52-73 | a valid label no longer than the name, empty exactly when nothing survives |
| `Names.WordsSplit` | internal/sync/names.go:55-66 | the words of two texts around a separator are those of the one and then of the other; letters and digits alone are one word |
| `Names.SanitizedExact` | internal/sync/names.go:66-73 | the dashed words whole if they fit into 63, else their first 63, or 62 before a dash |
| `Names.SanitizedIdempotent` | internal/sync/names.go:52-73 | sanitising twice changes nothing more |
| `Names.ResourceNameExact` | internal/sync/names.go:75-90 | the host's first label, else the instance, else the prefixed address with dashes |
| `Names.ResourceNameIsLabel` | internal/sync/names.go:75-90 | a resource name is a label if and only if host or instance leaves one or the address fits |
| `Names.IPv4AlwaysNamed` | internal/sync/names.go:75-90 | every IPv4 endpoint gets a valid label |
| `Defaults.ParseDefaults` | internal/inventory/defaults.go:17-34 | the loop with its early returns computes the specified result |
| `Defaults.EntryExact` | internal/inventory/defaults.go:23-31 | an entry stands for a service, user and password if and only if it is these joined by the first equals sign and the first colon behind it, none empty |
| `Defaults.SplitExact` | internal/inventory/defaults.go:22-22 | the entries joined again are the flag, and hold no comma |
| `Defaults.ParseMeans` | internal/inventory/defaults.go:10-34 | accepted exactly when every entry is complete; then the last entry per service wins |
| `Defaults.RoundTrip` | helm/tinkerbell-bmc-discovery-controller/templates/deployment.yaml:52-56 | parsing undoes the chart's printing for every map of printable credentials, in any order |

## Left out

- Clusters and namespaces: the teardown system holds one Cluster and its Machines; how a Machine's Cluster key is derived from spec or label is not modelled.
- Address lookup, dialling, the credential load and the refresh inside a reconcile: oracles that answer, answer empty, or fail.
- Informer staleness for the teardown controller, API latency in the real-time bound, crashes and API errors during that bound.
- Watch events and predicates: a reconcile may begin at any time; only the queue's own delays are modelled.
- Events, metrics and logs, except the half-released gauge.
- The calendar: timestamps go through an abstract whole-second codec.
- Annotation keys: split by the pre-terminate prefix and the controllers' own names instead of spelled out; other conditions than Deleting are opaque.
- Unicode: case folding and lower-casing are on ASCII letters.
- Go's `sort.Slice`: an insertion sort stands for it.
- Managed fields: which of the fields left out an apply prunes is left open, field by field; only discovery's own fields can be pruned.
- `DiscoveryMapping.UpdateKeepsForeignFields`: of several live interfaces only the first is carried; the code sends a list of one.
- `Teardown.Reconciler.Reconcile`: a Machine removed in the middle of its own reconcile; it is found missing at the pick-up or not at all.
- Lost acknowledgements of Hardware and Secret writes: such a call is carried out or fails without effect. Teardown's patches and Talos calls may land unacknowledged.
- `Credentials.CredentialCache.GC`: check and deletion of one copy are one moment; the code's two reads and the delete could be interleaved.
- `TemplateName`: a substitution of placeholders from the endpoint and the inventory; none of the properties proved depend on how a name was chosen.
- The BMC Machine and auth Secret builders, and the order of the three writes of one sync: constant structures filled from the endpoint, written through the same get, guard and write as Hardware, with no field another writer shares.
- The mDNS browser, inventory collection, the sync worker and its queue, `cmd/`, and components that exist only in documents: network input, a library's queue, and wiring, which keep no state the protocols read.
