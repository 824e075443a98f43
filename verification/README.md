# Verified model of the NetBox / Kubernetes reconciliation

machinecfg copies state between two remote systems. It reads devices and clusters from NetBox and creates Tinkerbell
`Hardware` objects and machine configurations from them; it reads Kubernetes objects and writes addresses, services and
device status back to NetBox. This project models that logic in Dafny and proves what it keeps. The two remote systems
are in-memory stores. Every API call is one atomic step that goes through or fails and changes nothing, and which calls
fail is arbitrary (`Faults.Clock`).

Run `dafny verify dfyconfig.toml` to check everything.

## Parts

| part | files | what it holds |
|---|---|---|
| foundations | `Text`, `Faults` | Go's string and number operations over ASCII; the clock of API calls and failures |
| cluster write-back | `Ipam`, `ClusterSync`, `ClusterClient`, `ClusterEvolution`, `ClusterAllocation`, `ClusterOwnership`, `ClusterIdempotence`, `ClusterShow`, `ClusterMeaning`, `ClusterPromises` | the run as functions of the store, the imperative client proved equal to them, and what every run, two runs and the reader see |
| device lifecycle | `Lifecycle`, `LifecycleClient`, `LifecycleEffects`, `LifecycleConvergence`, `LifecycleOrder`, `LifecycleMeaning`, `LabelPatch`, `LifecycleHistory` | the two controllers and the command line, fault isolation, convergence, label patches under interference, safety over all histories |
| configuration compilers | `NetworkData`, `Networkd`, `Flatcar`, `FlatcarText`, `FlatcarFiles`, `FlatcarLossless`, `FlatcarMeaning`, `Talos` | both compilers over the same data, the text they write and its reader, and their agreement |
| shared configuration | `Csv`, `ControllerConfig` | filters, reloads, and readers among reloads |

Where the program changes state step by step, a class (`ClusterClient.NetBox`, `LifecycleClient.Stores`,
`ControllerConfig.Config`) or a method with a loop does the same, and its `ensures` equates the new state with a function
of the old one; the properties are lemmas about that function. The `Meaning` modules state what those functions compute
without naming them: over annotation texts, status values, labels and the text of the generated files.

## Where the code does less than its documentation says

Each item is a lemma with the exact condition, and one with an input on which the promise fails.

- The first address of the Cilium annotation is synchronised exactly when it stands in the very first entry: after a blank
  entry it is never written, though the reader lists it (`ClusterPromises.FirstAddressWritten`; on the way from a run to
  the table, `ClusterPromises.FirstAddressShownIff`). Fails on `",10.0.0.1"` (`ClusterPromises.LateExample`).
- "Ensures the address exists and is assigned to the group" holds exactly when it did before or the free-text search
  finds nothing (`ClusterPromises.EnsureAddressPromises`). Fails when 10.0.0.10/32 is stored and 10.0.0.1 is wanted
  (`ClusterPromises.ShadowedAddress`), and when another group has the address (`ClusterPromises.KeptAssignment`).
- Group ids stay above the existing ones exactly when there is room for one id per new cluster name
  (`ClusterAllocation.RoomIsNeeded`). Fails when the highest int32 is taken (`ClusterAllocation.WrappedId`).
- The two lifecycle controllers converge, but commute exactly when the order is irrelevant for every device
  (`LifecycleOrder.OrdersAgreeIff`). Fails for one offline device with its Hardware (`LifecycleOrder.OfflineDeviceExample`).
- The controller and the command-line sync-status write the same device status exactly when no device that is not staged
  has an object whose annotation is neither absent nor "true" (`LifecycleMeaning.StatusPassAgreesIff`). They differ on
  the annotation "false" (`LifecycleMeaning.FalseAnnotationExample`).
- A label that read right but was changed before the patch arrives stays wrong (`LabelPatch.DesiredAfterInterference`,
  `LabelPatch.LabelLeftWrong`).
- Two Flatcar files share a path exactly when a VLAN name repeats or equals the interface name
  (`FlatcarLossless.PathsDistinctIff`, `FlatcarLossless.ClashExample`).
- Flatcar looks for the DHCP tag on the address and Talos on the interface. Their VLANs agree exactly when no DHCP-tagged
  interface has an address on a VLAN it carries (`Agreement.VlansAgreeIff`), and their addresses exactly when the last
  interface with an address of its own is not DHCP-tagged or its address is repeated (`Agreement.AddressAgreesIff`). Both
  fail in `Agreement.TaggedExample`. VLAN id 0 as "no VLAN" is safe exactly when the interface does not carry VLAN 0
  (`Agreement.SentinelExact`, `Agreement.SentinelExample`).
- Separate getters do not give one snapshot: client and filters belong together exactly when the reloads configured the
  two together at some moment between the reads (`ControllerConfig.SnapshotIff`), which for a single reload means that it
  keeps one of them (`ControllerConfig.SnapshotOfOneReload`). Fails in `ControllerConfig.TornExample`.

## Model

| member | source | states |
|---|---|---|
| Ipam.HostCidr | pkg/cluster/sync_status.go:476-479 | appending /32 to bare IPv4 text names exactly the host the bare text names, and never parses when a mask is already there |
| Ipam.BestIsLongest | pkg/cluster/sync_status.go:396-400 | the prefix taken for an address is at least as long as every prefix that contains it |
| Ipam.HostPrefixIsNeutral | pkg/cluster/tailscale.go:160-186 | a host prefix added for an address that no prefix covers changes the domains found for no address |
| ClusterSync.ReadEndpoint | pkg/cluster/sync_status.go:189-284 | reading the endpoint writes nothing and, when no call failed, gives the endpoint the inventory describes |
| ClusterSync.SecretDevice | pkg/cluster/tailscale.go:106-121 | the device has the first listed IP and the FQDN without blanks and trailing dots, and there is none exactly when both are empty |
| ClusterSync.UsableDomain | pkg/cluster/sync_status.go:422-431 | the first domain that is not routing-only, and "" exactly when there is none |
| ClusterSync.EnsureRow | pkg/cluster/sync_status.go:307-364 | a lookup that creates what it misses: failure changes nothing, success returns the first match, a row is added only if there was none |
| ClusterSync.MaxGroupId | pkg/cluster/sync_status.go:286-302 | the id the allocator starts from is the highest stored one |
| ClusterClient.NetBox.GetOrCreateGroup | pkg/cluster/sync_status.go:304-332 | store, clock and result as specified for the group lookup, under any failures |
| ClusterClient.NetBox.GetOrCreateTemplate | pkg/cluster/sync_status.go:334-364 | the same for the service template |
| ClusterClient.NetBox.GetOrCreateService | pkg/cluster/sync_status.go:501-543 | the same for the service of a cluster |
| ClusterClient.NetBox.GetOrCreateAddress | pkg/cluster/sync_status.go:440-499 | the same for an address, including the later DNS name and its ignored failure |
| ClusterClient.NetBox.GetOrCreatePrefix | pkg/cluster/tailscale.go:160-186 | the same for a host prefix |
| ClusterClient.NetBox.GetDnsFromPrefix | pkg/cluster/sync_status.go:392-432 | the name built from the first usable domain of the longest prefix, found by the loop over the field |
| ClusterClient.NetBox.SyncCiliumAddress | pkg/cluster/sync_status.go:117-137 | the Cilium stage of an iteration |
| ClusterClient.NetBox.SyncTailscaleAddress | pkg/cluster/sync_status.go:139-154 | the Tailscale stage, which never stops the iteration |
| ClusterClient.NetBox.SyncServiceRecords | pkg/cluster/sync_status.go:157-178 | the template and service stages |
| ClusterClient.NetBox.SyncOne | pkg/cluster/sync_status.go:77-181 | one iteration with all its early exits |
| ClusterClient.NetBox.SyncLoop | pkg/cluster/sync_status.go:75-184 | the loop, with its id counter and appended results, is the fold of the iterations |
| ClusterClient.NetBox.Sync | pkg/cluster/sync_status.go:47-184 | the whole run |
| ClusterEvolution.EvolvesTransitive | pkg/cluster/sync_status.go:47-184 | what every stretch of a run keeps composes |
| ClusterEvolution.SyncCiliumOk | pkg/cluster/sync_status.go:117-137 | under any failures the stage keeps the store sound and raises Updated exactly when it changed a collection |
| ClusterEvolution.SyncTailscaleOk | pkg/cluster/sync_status.go:139-154 | the same for the Tailscale stage, whose new prefix is not an update |
| ClusterEvolution.SyncClusterOk | pkg/cluster/sync_status.go:77-181 | under any failures a report says Updated if and only if its iteration changed groups, addresses, templates or services, also when it carries an error |
| ClusterEvolution.SyncAllOk | pkg/cluster/sync_status.go:75-184 | the loop hands out consecutive ids in creation order and at most one group per name |
| ClusterEvolution.RunOk | pkg/cluster/sync_status.go:47-184 | the same for a whole run, with at most one new group per selected cluster |
| ClusterEvolution.HistorySound | pkg/cluster/sync_status.go:436-543 | over any list of runs: no record lost, a DNS name is written once and never a bare IP, every new address or service names an existing group |
| ClusterEvolution.BlockAbove | pkg/cluster/sync_status.go:286-302 | new ids are exactly the successors of the highest one if and only if they fit in an int32 |
| ClusterEvolution.GroupIdsFresh | pkg/cluster/sync_status.go:70-115 | for every run and failure pattern: one block of ids, one group per name, none under a name in use |
| ClusterAllocation.GroupsCreated | pkg/cluster/sync_status.go:77-115 | without failures a run creates one group for each name of a selected cluster that has an endpoint and no group yet |
| ClusterAllocation.RoomIsEnough | pkg/cluster/sync_status.go:70-115 | whatever fails: with room for one id per selected cluster the new ids are consecutive, above all old ones and unique |
| ClusterAllocation.RoomIsNeeded | pkg/cluster/sync_status.go:286-302 | without failures they are consecutive and above all old ones if and only if there is room for one id per new name |
| ClusterAllocation.WrappedId | pkg/cluster/sync_status.go:301 | with the highest int32 taken the next group gets the lowest |
| ClusterOwnership.SyncClusterWrites | pkg/cluster/sync_status.go:77-181 | under any failures an iteration writes only for its own cluster: its group name, its addresses under its group, the service with the port of its endpoint, a DNS name it wants |
| ClusterOwnership.RunWritesForItsClusters | pkg/cluster/sync_status.go:47-184 | the same for a run: every record created and every DNS name written, also on an older address, belongs to a selected cluster that has an endpoint |
| ClusterIdempotence.SyncAllSettles | pkg/cluster/sync_status.go:77-184 | after a loop in which no call failed every cluster has its group, its addresses with their names, and its service, and the reports say so |
| ClusterIdempotence.SettledStable | pkg/cluster/sync_status.go:448-499 | a cluster with nothing left to write stays so, and keeps its report, whatever later iterations write |
| ClusterIdempotence.SyncClusterSettles | pkg/cluster/sync_status.go:77-181 | an iteration in which no call failed leaves its cluster with nothing left to write |
| ClusterIdempotence.SyncClusterQuiet | pkg/cluster/sync_status.go:77-181 | an iteration on such a cluster makes no write and reports Updated=false |
| ClusterIdempotence.RunTwice | pkg/cluster/sync_status.go:47-184 | whole-run idempotence: a second run writes nothing and repeats every report with Updated=false |
| ClusterShow.ShowIPAddresses | pkg/cluster/ipaddr.go:68-140 | the nested loops give the rows of the picked control planes in order |
| ClusterShow.WrittenIsShown | pkg/cluster/ipaddr.go:77-160 | after a run without failures the reader shows as assigned the first annotation entry and the Tailscale address of every managed cluster of the run |
| ClusterMeaning.AnnotatedAddressFound | pkg/cluster/sync_status.go:369-390 | for every annotation text: after a run without failures its first entry, if not blank, can be found, for every managed cluster of the run with an endpoint |
| ClusterMeaning.NewRecord | pkg/cluster/sync_status.go:476-499 | the record added for a first entry that is found nowhere: its text, name, group and status, and what the report says of it |
| ClusterMeaning.ExposedIff | pkg/cluster/tailscale.go:51-65 | exposed if and only if the one annotation is "true" and the other is not empty |
| ClusterMeaning.TailscaleAddressFound | pkg/cluster/tailscale.go:74-186 | after a run without failures the first IP in the secret of the proxy of an exposed cluster can be found and lies in a prefix |
| ClusterMeaning.ManagedEndpoint | pkg/cluster/sync_status.go:189-210 | host and port of the CAPI object, and 6443 for an absent or zero port |
| ClusterMeaning.StandaloneEndpoint | pkg/cluster/sync_status.go:216-284 | the address of the first headnode device, or else virtual machine, without its mask, and 6443 |
| ClusterMeaning.NoStandaloneEndpoint | pkg/cluster/sync_status.go:237-281 | no endpoint without a headnode that has an address |
| ClusterMeaning.NameWanted | pkg/cluster/sync_status.go:122-125 | the endpoint host if it is a hostname, and otherwise cluster, dot, first usable domain of the longest prefix |
| ClusterMeaning.ReportIsTrue | pkg/cluster/sync_status.go:77-181 | whatever fails: no error means that group, service and template exist under the reported keys, an error means a failed call or no endpoint |
| ClusterMeaning.EveryClusterReported | pkg/cluster/sync_status.go:45-46 | whatever fails, every cluster has its report, in order: an error of one does not stop the others |
| ClusterMeaning.IterationInLoop | pkg/cluster/sync_status.go:77-181 | the report of any cluster is that of its iteration on what the clusters before it left |
| ClusterMeaning.SelectedOne | pkg/cluster/sync_status.go:54-58 | a cluster is taken if and only if its kind is one of the two and its name is asked for or no name is |
| ClusterMeaning.SelectedInOrder | pkg/cluster/sync_status.go:54-60 | the clusters are taken in the order of NetBox |
| ClusterMeaning.RowsTell | pkg/cluster/ipaddr.go:68-160 | every row of the table is about an annotation entry or the device of a control plane that was asked for, and says what NetBox says |
| ClusterMeaning.EveryEntryShown | pkg/cluster/ipaddr.go:95-111 | whatever queries fail, every entry that is not blank has its row, in order |
| ClusterMeaning.DeviceShown | pkg/cluster/ipaddr.go:115-136 | an exposed control plane that is asked for has the row of its device, with or without an IP |
| ClusterPromises.RunTexts | pkg/cluster/sync_status.go:449-499 | after a run without failures the stored addresses are those of one look-and-add pass over the addresses the clusters give out |
| ClusterPromises.FirstAddressWritten | pkg/cluster/sync_status.go:382-389 | one stage: the first address of the annotation is found afterwards if and only if it was before or no blank entry stands in front of it |
| ClusterPromises.NothingWritten | pkg/cluster/sync_status.go:373-385 | with blank entries only, or unreadable annotations, the stage writes and reports nothing |
| ClusterPromises.FirstAddressShownIff | pkg/cluster/ipaddr.go:91-111 | after a run without failures the table shows it as assigned if and only if it was findable before or stands in an address the run looks for |
| ClusterPromises.LateExample | pkg/cluster/sync_status.go:387-389 | from an empty store and the annotation ",10.0.0.1" no run ever writes that address, and the table shows it as unassigned |
| ClusterPromises.EnsureAddressPromises | pkg/cluster/sync_status.go:440-499 | the host is recorded, and assigned to the group, afterwards if and only if it was before or the search finds nothing |
| ClusterPromises.ShadowedAddress | pkg/cluster/sync_status.go:449-458 | a stored 10.0.0.10/32 hides the missing 10.0.0.1 |
| ClusterPromises.KeptAssignment | pkg/cluster/sync_status.go:456-474 | an address recorded under another group stays there |
| Text.IdRoundTrip | pkg/tinkerbell/hardware.go:226 | a decimal label parses back to its number if and only if it is an int32 |
| LifecycleEffects.OwnId | pkg/tinkerbell/hardware.go:345-349 | the label a device wants on its Hardware names that device for every reader |
| Lifecycle.Merged | pkg/tinkerbell/hardware.go:328-336 | every desired label reads as desired, others are untouched, and nothing changes exactly when all read right already |
| LifecycleClient.Stores.SetDeviceStatus | pkg/tinkerbell/sync_status.go:118-140 | read, then patch only when different |
| LifecycleClient.Stores.MergeLabels | pkg/tinkerbell/hardware.go:326-336 | the in-place label loop, in any map order, gives the merged labels and asks for a patch exactly when they differ |
| LifecycleClient.Stores.ReconcileExisting | pkg/tinkerbell/hardware.go:317-359 | labels, then activation, with every error exit |
| LifecycleClient.Stores.ApplyHardware | internal/controller/kubernetes_updater/netbox_sync_reconciler.go:126-146 | get, then create or reconcile |
| LifecycleClient.Stores.PruneHardware | internal/controller/kubernetes_updater/netbox_sync_reconciler.go:149-173 | get, then delete |
| LifecycleClient.Stores.SyncTinkerbell | internal/controller/kubernetes_updater/netbox_sync_reconciler.go:72-122 | the two loops and their error counter |
| LifecycleClient.Stores.ReconcileHardware | internal/controller/netbox_updater/hardware_reconciler.go:52-119 | the write-back of one Hardware object, and the requeue without a client |
| LifecycleClient.Stores.SyncStatus | pkg/tinkerbell/sync_status.go:36-107 | the command-line write-back of a namespace, with the listing and a result record for each object it handles |
| LifecycleEffects.StatusUpdatedExact | pkg/tinkerbell/sync_status.go:80-103 | whatever fails, a result says Updated if and only if its entry changed the device |
| LifecycleMeaning.EntryOutcome | pkg/tinkerbell/sync_status.go:49-103 | by annotation and label: active, staged, ignored, or one of the three errors, with the result record |
| LifecycleMeaning.StatusEntriesConcat | pkg/tinkerbell/sync_status.go:49-104 | the loop over two lists is the loop over the first and then, from what that left, over the second, with all results |
| LifecycleMeaning.ListingExactly | pkg/tinkerbell/sync_status.go:37-40 | the listing has exactly the objects of the namespace, and of all for the empty one |
| LifecycleMeaning.EventOutcome | internal/controller/netbox_updater/hardware_reconciler.go:69-119 | an event sets the labelled device to active if the object is provisioned and to staged otherwise, and touches nothing else |
| LifecycleMeaning.StatusPassAgreesIff | pkg/tinkerbell/sync_status.go:49-107 | over all objects the command line leaves the stores of the controller if and only if no device that is not staged has an object with another annotation value |
| LifecycleMeaning.FalseAnnotationExample | pkg/tinkerbell/sync_status.go:52-58 | a planned device with the annotation "false": the controller stages it, the command line does not |
| LifecycleClient.Stores.CreateList | cli/machinecfg/cmd/hardware_sync.go:60-81 | the create-first loop and its failure counter |
| LifecycleClient.Stores.DeleteList | cli/machinecfg/cmd/hardware_sync.go:92-100 | the delete loop, where a missing object is a failure |
| LifecycleClient.Stores.CliSync | cli/machinecfg/cmd/hardware_sync.go:56-103 | the whole command-line sync |
| LifecycleEffects.PerformAllIsolated | internal/controller/kubernetes_updater/netbox_sync_reconciler.go:96-116 | every operation of a list acts as it would alone, whatever fails |
| LifecycleEffects.SyncedUnique | internal/controller/kubernetes_updater/netbox_sync_reconciler.go:72-122 | the state a fault-free pass must reach is unique |
| LifecycleEffects.PassIsFaultIsolated | internal/controller/kubernetes_updater/netbox_sync_reconciler.go:72-122 | with the outcomes of the two loops: non-failing items end as in a fault-free pass, the rest of both stores is untouched, and the error count is exact |
| LifecycleConvergence.PassSyncs | internal/controller/kubernetes_updater/netbox_sync_reconciler.go:72-122 | a fault-free pass reaches exactly the prescribed state |
| LifecycleConvergence.CliPassAgrees | cli/machinecfg/cmd/hardware_sync.go:56-100 | the command-line sync and the controller pass leave identical stores |
| LifecycleMeaning.PassOutcomes | pkg/tinkerbell/hardware.go:29-71 | both syncs, by device status: offline and planned devices lose their object, staged ones get one with their labels and become active if it is provisioned, all others and everything else stay |
| LifecycleMeaning.OperationErrors | internal/controller/kubernetes_updater/netbox_sync_reconciler.go:126-173 | an operation reports an error if and only if one of its calls failed, a delete of the command line also on a missing object |
| LifecycleMeaning.ItemAttempted | internal/controller/kubernetes_updater/netbox_sync_reconciler.go:96-116 | every item of a loop is attempted on what the items before it left, whatever became of them |
| LifecycleMeaning.OperationSucceeds | internal/controller/kubernetes_updater/netbox_sync_reconciler.go:126-173 | an item fails only by a call of its own: with none of those failing it succeeds |
| LifecycleMeaning.EventErrors | internal/controller/netbox_updater/hardware_reconciler.go:61-84 | an event is an error if and only if a call failed or the labelled device does not exist |
| LifecycleMeaning.PassErrors | internal/controller/kubernetes_updater/netbox_sync_reconciler.go:78-121 | a pass succeeds if and only if none of its calls failed |
| LifecycleConvergence.ReconcileKeysEffect | internal/controller/netbox_updater/hardware_reconciler.go:52-97 | any sequence of events, repeated and in any order, has the same effect as one event for each key |
| LifecycleConvergence.SyncedIdempotent | internal/controller/kubernetes_updater/netbox_sync_reconciler.go:72-122 | passes are idempotent |
| LifecycleConvergence.RestIsQuiet | pkg/tinkerbell/sync_status.go:36-107 | at rest neither controller and neither command makes a write |
| LifecycleConvergence.ReconcileThenPassRests | internal/controller/netbox_updater/hardware_reconciler.go:52-119 | from every well-formed state, write-back of all Hardware and then one pass reaches rest |
| LifecycleConvergence.PassReconcilePassRests | internal/controller/kubernetes_updater/netbox_sync_reconciler.go:72-173 | the same for pass, write-back, pass |
| LifecycleOrder.OrdersAgreeIff | internal/controller/netbox_updater/hardware_reconciler.go:52-97 | the two controllers leave equal stores in both orders if and only if every device the write-back reaches is not up for deletion and, where the two disagree on staging, has up-to-date labels |
| LifecycleOrder.OrderMatters | internal/controller/netbox_updater/hardware_reconciler.go:77-79 | what the order decides for every device with status offline or planned in scope and its labelled Hardware |
| LifecycleOrder.OfflineDeviceExample | internal/controller/netbox_updater/hardware_reconciler.go:112-119 | one offline device with its Hardware: sync first deletes the object, write-back first keeps it |
| LabelPatch.PatchRoundTrip | pkg/tinkerbell/hardware.go:327 | a merge patch applied to the object it was computed from gives the wanted object |
| LabelPatch.PatchUnderInterference | pkg/tinkerbell/hardware.go:323-342 | a patch from a stale read keeps every annotation and every other label, and sets exactly the labels that had read differently |
| LabelPatch.DesiredAfterInterference | pkg/tinkerbell/hardware.go:331-336 | a desired label reads right afterwards if and only if the patch carries it or it is right by then |
| LabelPatch.LabelLeftWrong | pkg/tinkerbell/hardware.go:331-336 | a label changed by someone else after the read stays as they set it |
| LabelPatch.PatchWithoutInterference | pkg/tinkerbell/hardware.go:317-342 | without interference only labels change, every desired one reads right, and a second call has nothing to patch |
| LifecycleHistory.StepWrites | pkg/tinkerbell/hardware.go:344-356 | a step of the program writes only staged or active, and active only on seeing a provisioned object that names or occupies the device |
| LifecycleHistory.ProvisionedHasOrigin | internal/controller/kubernetes_updater/netbox_sync_reconciler.go:126-173 | the program never provisions: every provisioned object was made so from outside |
| LifecycleHistory.ActiveHasCause | pkg/tinkerbell/sync_status.go:49-140 | in every interleaving with stale reads and failures, each activation traces back to a provisioning from outside |
| LifecycleHistory.NothingActivatesAlone | internal/controller/netbox_updater/hardware_reconciler.go:112-119 | without a provisioner and without edits in NetBox no device ever becomes active |
| NetworkData.FindDhcpTag | pkg/common/netbox.go:153-161 | true exactly when some tag is dhcp in any case |
| NetworkData.IsVlanInList | pkg/common/netbox.go:163-171 | true exactly when the id is in the list |
| Networkd.RenderRoundTrip | pkg/butane/flatcar.go:213-258 | splitting a rendered file into lines and reading them gives back exactly its lines |
| Flatcar.SetValues | pkg/butane/flatcar.go:182-211 | the physical settings: the last gateway, all DNS addresses without mask, no static setting in DHCP mode |
| FlatcarMeaning.AddressKinds | pkg/butane/flatcar.go:144-158 | an address is on a carried VLAN of its first prefix, on the interface itself, or ignored without a prefix |
| FlatcarMeaning.AddressesInOrder | pkg/butane/flatcar.go:141-160 | VLAN entries follow the order of the addresses, and the last own address wins |
| FlatcarMeaning.OneInterface | pkg/butane/flatcar.go:133-161 | an interface alone gives the entries and the address of its addresses |
| FlatcarMeaning.InterfacesInOrder | pkg/butane/flatcar.go:133-161 | the same over the interfaces |
| FlatcarMeaning.PhysicalFileDescribes | pkg/butane/flatcar.go:182-258 | the text of the physical file holds name, MAC, mode, address, last gateway, DNS without masks and domains of the last own address, and no static setting in DHCP mode |
| FlatcarMeaning.VlanFileDescribes | pkg/butane/flatcar.go:260-292 | the text of a VLAN file holds name, address, gateways and DNS without masks, and domains |
| FlatcarText.VlanStartText | pkg/butane/flatcar.go:263 | the format string of a VLAN file is the rendering of its first lines |
| FlatcarText.NetdevText | pkg/butane/flatcar.go:296 | the same for a .netdev file |
| FlatcarFiles.WriteLink | pkg/butane/flatcar.go:213-258 | the string built from the format strings, piece by piece, is the rendering of the lines of the file |
| FlatcarFiles.WriteVlan | pkg/butane/flatcar.go:260-292 | the same for a VLAN .network file |
| FlatcarFiles.WriteNetdevs | pkg/butane/flatcar.go:294-307 | one .netdev file per entry, in order |
| FlatcarFiles.Extract | pkg/butane/flatcar.go:122-180 | the nested loops give the whole file set, or nothing when a listing fails |
| FlatcarLossless.LinkTextHolds | pkg/butane/flatcar.go:213-258 | every key of the physical file reads back as the setting it was written from, for all newline-free fields |
| FlatcarLossless.LinkRoundTrip | pkg/butane/flatcar.go:182-258 | name, MAC, DHCP mode, addresses, gateway, DNS, domains and VLAN names are all read back from the text |
| FlatcarLossless.VlanTextHolds | pkg/butane/flatcar.go:260-292 | the same for every key of a VLAN .network file |
| FlatcarLossless.NetdevTextHolds | pkg/butane/flatcar.go:294-307 | the name and kind read back, and the id parses back to the VLAN id, for every int32 id |
| FlatcarLossless.FileSetClosed | pkg/butane/flatcar.go:242-307 | every VLAN= line has its own .network and .netdev file, in order, and there are no others |
| FlatcarLossless.PathsDistinctIff | pkg/butane/flatcar.go:248-303 | all paths differ if and only if VLAN names differ from each other and from the interface name |
| FlatcarLossless.ClashExample | pkg/butane/flatcar.go:248-282 | a VLAN named like its interface: two files with one path |
| Talos.CompileIface | pkg/talos/talosconfig.go:82-109 | the inner loop: VLANs in order, the last other address |
| Talos.Compile | pkg/talos/talosconfig.go:63-117 | one entry per interface, bare when DHCP-tagged, nothing when a listing fails |
| Agreement.SentinelExact | pkg/talos/talosconfig.go:83-96 | VLAN 0 as "no VLAN" is read right if and only if the interface does not carry VLAN 0 or the prefix has a VLAN |
| Agreement.SentinelExample | pkg/talos/talosconfig.go:83-96 | on an interface that carries VLAN 0 an address without VLAN becomes one on VLAN 0 |
| Agreement.CompilersAgree | pkg/talos/talosconfig.go:72-117 | over the interfaces without DHCP tag, Talos VLANs are Flatcar's in the same order with no id truncated, and the last CIDR is Flatcar's address |
| Agreement.InterfaceAgrees | pkg/talos/talosconfig.go:72-117 | interface by interface: its name, nothing else if it is DHCP-tagged, and what Flatcar makes of it alone otherwise |
| Agreement.VlansAgreeIff | pkg/talos/talosconfig.go:81 | over all interfaces the VLANs are equal if and only if no DHCP-tagged one has an address on a VLAN it carries |
| Agreement.AddressAgreesIff | pkg/talos/talosconfig.go:104-106 | the addresses are equal if and only if the last interface with an address of its own is not DHCP-tagged or the last one without the tag repeats its address |
| Agreement.DistinctAddressesAgreeIff | pkg/talos/talosconfig.go:104-106 | without repeated addresses: if and only if that interface is not DHCP-tagged |
| Agreement.TaggedExample | pkg/talos/talosconfig.go:81-109 | one DHCP-tagged interface on which both differ |
| Agreement.VlanTextAgrees | pkg/butane/flatcar.go:141-163 | the Flatcar text of each VLAN holds the id and address of the Talos document |
| Agreement.AddressTextAgrees | pkg/butane/flatcar.go:182-194 | the Address read from the physical file is the last Talos CIDR, unless that address is DHCP-tagged |
| Csv.SplitCsvLoop | internal/controller/kubernetes_updater/config.go:121-137 | the loop gives the specified tokens |
| Csv.SplitOfConcat | internal/controller/kubernetes_updater/config.go:119-137 | the filters of two lists joined by a comma are those of the two lists |
| Csv.TokensAreClean | internal/controller/kubernetes_updater/config.go:119-137 | every token is trimmed, lower-case, non-empty and comma-free |
| Csv.RejoinIsIdentity | internal/controller/kubernetes_updater/config.go:119-137 | joining the tokens and splitting again changes nothing |
| Csv.NoFilterIff | internal/controller/kubernetes_updater/config.go:122-136 | there is no filter if and only if the text is all commas and blanks |
| DeviceQuery.ResolveClusterIds | pkg/common/netbox.go:80-95 | the ids of the cluster records found, in order, or an error |
| DeviceQuery.GetDevices | pkg/common/netbox.go:18-76 | the request built step by step, with the primary-IP condition, the empty answer without a call, and both errors |
| DeviceQuery.QueryMeaning | pkg/common/netbox.go:21-54 | every parameter of the request: primary IP and status always, each list if and only if its first element is not blank, the ids of the found clusters; and when there is no request |
| DeviceQuery.QuerySelects | pkg/common/netbox.go:18-56 | the answer holds exactly the devices that the filters mean |
| DeviceQuery.ConfiguredFilter | pkg/common/netbox.go:25-39 | a configured string is sent as its tokens, and is not sent if and only if it has no token |
| ControllerConfig.Config.Replace | internal/controller/kubernetes_updater/config.go:140-162 | all fields are replaced, the client only when endpoint and token are present |
| ControllerConfig.Config.Apply | internal/controller/kubernetes_updater/config.go:165-202 | defaults, parsing and filters of a reload |
| ControllerConfig.ReloadReads | internal/controller/kubernetes_updater/config.go:165-202 | every getter after a reload, from the texts of the two objects, with each default |
| ControllerConfig.ReloadVariant | internal/controller/kubernetes_updater/config.go:184-187 | the variant is the configured text without blanks, and none if and only if it is all blanks |
| ControllerConfig.Config.Reconcile | internal/controller/kubernetes_updater/config.go:231-249 | a reload that cannot read both objects changes nothing |
| ControllerConfig.Config.GetSyncInterval | internal/controller/kubernetes_updater/config.go:81-88 | the interval read is positive in every state |
| ControllerConfig.Config.GetBackend | internal/controller/kubernetes_updater/config.go:71-78 | the backend read is never empty |
| ControllerConfig.ClientIsLatest | internal/controller/kubernetes_updater/config.go:158-161 | after any reloads the client is that of the latest reload with endpoint and token |
| ControllerConfig.ClientNeverLost | internal/controller/kubernetes_updater/config.go:140-162 | once there is a client every later read finds one |
| ControllerConfig.ClientAppearsIff | internal/controller/kubernetes_updater/config.go:54-61 | from the start there is a client if and only if some reload had a token |
| ControllerConfig.PollIsSafe | internal/controller/kubernetes_updater/netbox_sync_reconciler.go:44-146 | whatever reloads fall between its reads, a polling pass never uses a missing client, for the listing or for any device, each one is the latest when read, and it polls again after a positive time |
| ControllerConfig.PollMeaning | internal/controller/kubernetes_updater/netbox_sync_reconciler.go:44-75 | when a pass waits, works or skips, and the filters, variant and interval it uses |
| ControllerConfig.OneClientWhenQuiet | internal/controller/kubernetes_updater/netbox_sync_reconciler.go:73-142 | the client of the listing is that of every device when no client is made meanwhile |
| ControllerConfig.FiltersAreLatest | internal/controller/kubernetes_updater/config.go:150-157 | after any reloads the filters are those of the latest reload that took effect |
| ControllerConfig.SnapshotWhenQuiet | internal/controller/kubernetes_updater/netbox_sync_reconciler.go:73-75 | client and filters belong together when no client is made between the reads |
| ControllerConfig.SnapshotIff | internal/controller/kubernetes_updater/netbox_sync_reconciler.go:73-75 | for any reloads between the reads: client and filters belong together if and only if the reloads configured the two together at some moment in between |
| ControllerConfig.SnapshotOfOneReload | internal/controller/kubernetes_updater/netbox_sync_reconciler.go:73-75 | for one reload: if and only if it makes no client, makes the same one, or has the same filters |
| ControllerConfig.TornExample | internal/controller/kubernetes_updater/netbox_sync_reconciler.go:73-75 | a reload that changes token and sites: the old client with the new filters |
| ControllerConfig.ReloadedQuery | internal/controller/kubernetes_updater/config.go:189-195 | after a reload each configured string decides its own query parameter |

## Left out

- IPv6 addresses: the program appends /32 unconditionally, which fits IPv4 only; `net.ParseIP` on IPv6 text stays an arbitrary predicate.
- HTTP, pagination, retries, caches and leader election: replaced by atomic calls that may fail; a listing returns everything.
- A second writer inside a run: a cluster run and one lifecycle operation on a device act on stores that nobody else changes meanwhile; `LifecycleHistory` interleaves whole operations and stale listings, and `LabelPatch` covers a change between read and patch.
- A call that fails after it took effect on the server.
- Primary keys other than positions, and deletion of NetBox IPAM records: the write-back never deletes one.
- NetBox's own uniqueness checks on creation, except that it refuses text that is no address.
- The specification and vendor data of a Hardware object: only name, labels and annotations are modelled, and whether the data can be extracted is a property of the device.
- The serial, model, role and other label values: an arbitrary map of the device.
- JSON decoding of Tailscale secrets, `time.ParseDuration` and the ignition variants: parameters of the model.
- Non-string Domains fields, and Unicode blanks and letters: the text operations are the ASCII ones.
- Events, logging, tracing, YAML and Ignition output, command-line flags.
- `pkg/butane/fcos.go`, `pkg/tinkerbell/clean.go`, `pkg/tinkerbell/pxe.go` and the show commands other than the address table: weaker copies or easy members.
- The metal3 backend, which the repository does not implement.
