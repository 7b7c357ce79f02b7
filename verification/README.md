# NetBox Sync in Dafny

NetBox Sync reconciles hypervisor inventory into NetBox under fail-closed rules. This project models its
hard core and proves what that core promises, over all inputs, all interleavings and all crash points.

Each component is a module. A specification on values says what an operation does; classes and methods
follow the code step by step and are proved against it; lemmas prove the promises about the specification.

## Main results

**LXC networks** (`Lxc*`). NetBox is a set of record maps; a batch is an ordered list of steps and every
single write is logged.

- After an accepted batch whose interfaces use distinct records, NetBox holds exactly what was discovered: every
  interface with its VM, display name, bridge, VLAN, names, observations, identity, MAC, addresses and primary
  address, and nothing else new (`LxcApplied.EveryInterfaceIsShown`, `PrimaryIsShown`, `NothingElseChanges`).
- The preflight accepts a batch *if and only if* every container has its VM and is clear on it and nothing was
  discovered twice, stated on the records themselves (`LxcAcceptance.BatchPassesIff`).
- A second apply passes its preflight and writes nothing *if and only if* no two discovered interfaces
  contend for a record, a name, a former key or a primary address
  (`LxcNecessity.SecondApplyWritesNothingIffSeparate`). The unconditional promise is false:
  `LxcSwappedNames` gives an accepted batch that does not converge.
- After every single write, existing assignments, primary MACs, row owners and foreign metadata are as
  they were (`LxcOwnership.EveryWriteKeepsOwnership`). Foreign metadata are unmanaged fields, identities of
  other namespaces, original names under other keys and observations of other instances.
- For every accepted batch, unique names stay unique after every single write *if and only if* no step
  gives a name to a second row before the row that had it was renamed
  (`LxcNames.NamesStayUniqueIffClear`). When interfaces use distinct records this means that those headed
  for one VM have distinct names (`LxcOwnership.NamesStayUniqueIffDistinct`). `LxcSharedVm` is an accepted
  batch that duplicates a name, because names are checked per container.

**ESXi identity** (`Esxi*`). The memoised network index equals the naive scan for any sequence of queries.
No object is selected twice in an adoption plan. No interface is claimed twice in a migration plan *if and
only if* no two hosts that report one id meet on an interface of the device recorded last under it
(`EsxiMigration.SingleClaimsIff`), so never when host ids are distinct; `EsxiRepeatedHost` is a plan that
claims an interface twice. Recorded BIOS keys are kept and resolved ids are distinct.

The verdicts of both plans and of the id resolution are characterised on the records themselves, both ways: when
an object or interface is managed, taken over, created, ambiguous, in conflict or blocked, which candidates it
shows, and when the plan exists at all (`EsxiAdoptionVerdicts`, `EsxiPortVerdicts`, `EsxiVmVerdicts`).

**Journals and fences** (`Catalog*`, `Bootstrap*`). Whatever is interrupted, all creates and resumptions of
one digest that may have taken effect make one object: without a Guard they are one call, with one they carry
one nonce. READY is always backed by a probe of exactly the stored credentials. A prerequisite POST of
unknown outcome is never blindly retried.

**Apply outcome** (`ApplyOutcome`). Once the write phase was entered, even if only part of the first stage
was written, the report is SUCCEEDED or OUTCOME_UNCERTAIN *if and only if* the child did not fail while
building its result and the run could be recorded. The unconditional promise is false:
`WrittenReportedAsNotWritten` and `WrittenReportedAsInternalError` give the two failing families. Over any
run each token launches at most one child, for the claims it was issued for.

**Services** (`AuthPolicy`, `DirectorySessions`, `HostReservations`). The replay memory is exactly the last
4096 applied updates, and an applied request repeated at any later time changes nothing and is answered with its
own revision exactly while it is among them. Every grant follows from a stored role. From any tables left by an
earlier release, legacy rows included, no hardware anchor is ever claimed by two sources.

**Arithmetic, order, rollback** (`CalendarSchedule`, `EventHistory`, `Rollback`). The 63-day search always
finds the least slot. The truncating event fold equals the greatest events of the union. A failed activation
or publication restores everything.

## Assumptions

- Digests, scope keys and plan fingerprints are injective, so they are modelled as the data they cover.
- A source identity names one discovered interface and one LXC batch comes from one source.
- NetBox primary keys are unique per collection, and ids and tokens it or the program creates are new.
- Provider ownership of a primary address is a fixed attribute of the VM.
- Remote prerequisite fields are only ever added, and an inventory read reports them truthfully.
- An event id is a digest over its time, and an unsuccessful event read carries no events.
- Undo moves of a rollback succeed.

Where the code and its description differ, the model follows the code: LXC convergence and name uniqueness
and apply outcomes are stated with their exact conditions, and a failed final cleanup of a restore leaves the
new state in place with any part of the old directories deleted.

## Model

| member | source | states |
|---|---|---|
| SourceIdentities.MergeEntries | netbox_sync/source_identity.py:162-189 | merging keeps exactly the entries outside the namespace of the identity, plus the identity |
| SourceIdentities.MergeIsIdempotent | netbox_sync/source_identity.py:162-189 | merging the same identity again changes nothing, not even the sorted order |
| SourceIdentities.ScanOfClean | netbox_sync/source_identity.py:139-146 | without a broken record the v2 scan answers membership |
| SourceIdentities.RankMeans | netbox_sync/source_identity.py:139-159 | the rank is v2 exactly for a record of the identity, legacy exactly for the v1 record of the explicit legacy owner, and none otherwise |
| Guests.DisplayName | netbox_sync/interface_display.py:6-15 | at most 64 characters; the plain label when it is unique and short, otherwise the longest prefix of the label that leaves room for the suffix, and the suffix |
| Guests.DesiredFieldsAreStable | netbox_sync/netbox_vm_interface_metadata.py:93-132 | built custom fields are a fixed point of building them again |
| Guests.DesiredFieldsHoldOnly | netbox_sync/netbox_vm_interface_metadata.py:93-132 | built fields hold the interface identity as the only v2 entry of its namespace |
| Guests.RankOnOwnRecord | netbox_sync/netbox_vm_interface_metadata.py:42-77 | a record holding the identity has the v2 rank |
| Guests.RankOnForeignRecord | netbox_sync/netbox_vm_interface_metadata.py:42-77 | a record holding another identity has the v2 rank if and only if that identity is the former key and no legacy entry hides it |
| Guests.NicRankIs | netbox_sync/netbox_vm_interface_metadata.py:42-77 | how any stored record ranks: own identity, v1 of the legacy owner, then the former key of a Proxmox interface |
| Guests.ReservedIs | netbox_sync/netbox_vm_network_planner.py:36-46 | an address is reserved exactly by its prefix: unspecified, loopback, link-local or multicast |
| Texts.CanonicalTextIsStable | netbox_sync/lxc_network_preflight.py:23-27 | a canonical MAC is its own canonical form |
| Texts.FoldIgnoresCase | netbox_sync/interface_display.py:6-29 | two names fold alike exactly when they differ in letter case only |
| Texts.StripIs | netbox_sync/lxc_network_preflight.py:23-27 | stripping cuts exactly the blanks at both ends |
| LxcInventory.IndexInterfaces | netbox_sync/lxc_network_inventory.py:29-38 | each bucket lists, once each, the rows of its VM |
| LxcInventory.IndexMacs | netbox_sync/lxc_network_inventory.py:40-49 | each bucket lists, once each, the MAC records with that canonical address |
| LxcInventory.IndexIps | netbox_sync/lxc_network_inventory.py:51-67 | each bucket lists, once each, the IP records with that address and VRF |
| LxcInventory.PrepareInventory | netbox_sync/lxc_network_inventory.py:19-74 | every index agrees with a scan of all records, key by key |
| LxcPreflight.MatchInterface | netbox_sync/lxc_network_preflight.py:71-106 | the row found is the only best-ranked one; duplicates and unowned name matches are refused |
| LxcPreflight.MatchVm | netbox_sync/lxc_network_preflight.py:57-68 | the VM found is the only best-ranked one and lies in the target cluster |
| LxcPreflight.CheckMac | netbox_sync/lxc_network_preflight.py:159-216 | accepts exactly when one free or own record carries the MAC and no other primary MAC is set; returns that record |
| LxcPreflight.CheckIp | netbox_sync/lxc_network_preflight.py:248-272 | accepts exactly when at most one record has the address and it is free or own |
| LxcPreflight.CheckIps | netbox_sync/lxc_network_preflight.py:219-283 | accepts exactly when every usable scoped address passes; returns their contexts in order and the IPv4 candidates |
| LxcPreflight.ValidateNames | netbox_sync/interface_display.py:18-29 | accepts exactly when desired names are distinct ignoring case, occupied names belong to the matched row, and no match is refused |
| LxcPreflight.PrepareNic | netbox_sync/lxc_network_preflight.py:286-317 | accepts exactly when the interface passes and returns its write context |
| LxcPreflight.PrepareNics | netbox_sync/lxc_network_preflight.py:366-377 | accepts exactly when every interface passes; counts every discovered MAC and address |
| LxcPreflight.PickCandidate | netbox_sync/lxc_network_preflight.py:379-386 | the candidate is the sole IPv4 key of the container unless the provider owns the primary address |
| LxcPreflight.PrepareContainer | netbox_sync/lxc_network_preflight.py:320-388 | accepts exactly when the container passes and the context describes it field by field |
| LxcPreflight.Prepare | netbox_sync/lxc_network_preflight.py:391-416 | accepts exactly when every container passes and no MAC or scoped IP is discovered twice in the batch |
| LxcWrites.ContextStepsAgree | netbox_sync/lxc_network_preflight.py:320-388 | a context filled by the preflight stands for exactly the specified write steps, including the record found for the primary address |
| LxcWrites.LxcWriter.WriteInterface | netbox_sync/lxc_network_writes.py:7-40 | performs exactly the interface step: create, update with the changes, or nothing |
| LxcWrites.LxcWriter.WriteMac | netbox_sync/lxc_network_writes.py:43-92 | performs exactly the MAC step: create or adopt a free record, then set it as primary if it is not |
| LxcWrites.LxcWriter.WriteIp | netbox_sync/lxc_network_writes.py:95-133 | performs exactly the address step and returns the record |
| LxcWrites.LxcWriter.WriteIps | netbox_sync/lxc_network_writes.py:193-194 | performs the address steps in order and records each key with its record |
| LxcWrites.LxcWriter.WritePrimary | netbox_sync/lxc_network_writes.py:136-160 | sets the primary address to the applied candidate, unless provider-owned, missing or already set |
| LxcWrites.LxcWriter.WriteContext | netbox_sync/lxc_network_writes.py:182-196 | performs one container: its interfaces in order, then the primary address |
| LxcWrites.LxcWriter.WriteNetworks | netbox_sync/lxc_network_writes.py:163-196 | performs the steps of all contexts in order and writes nothing else |
| LxcWrites.LxcWriter.ApplyNetworks | netbox_sync/netbox_lxc_network_apply.py:80-96 | a refused batch writes nothing; an accepted batch ends in the state and with the log of the specified steps |
| LxcNetworks.LogReplays | netbox_sync/lxc_network_writes.py:163-196 | replaying the log of single writes gives the state the steps reach |
| LxcConvergence.RecordServesOneJob | netbox_sync/lxc_network_preflight.py:159-283 | no MAC or IP record is used for two discovered interfaces of a batch |
| LxcConvergence.AppliedMeets | netbox_sync/lxc_network_writes.py:163-196 | after the whole phase every step is satisfied, whatever later steps wrote, when jobs use distinct records |
| LxcApplied.EveryInterfaceIsShown | netbox_sync/lxc_network_writes.py:7-133 | after an accepted batch with distinct records every discovered interface has a row on its VM under its display name, enabled, with its own bridge, VLAN, original name, observations and identity, its MAC as the primary one, and every address that is not reserved in its VRF; the row is the matched one or new |
| LxcApplied.PrimaryIsShown | netbox_sync/lxc_network_writes.py:136-160 | the only IPv4 address of a container becomes the primary address of its VM unless a provider owns it |
| LxcApplied.NothingElseChanges | netbox_sync/lxc_network_writes.py:163-190 | machines, and every row, MAC and address that no discovered interface stands for, are as they were |
| LxcApplied.VmFoundIff | netbox_sync/lxc_network_preflight.py:57-68 | a VM is found exactly when it fits the container best, alone, and lies in the cluster |
| LxcApplied.InterfaceFoundIff | netbox_sync/lxc_network_preflight.py:71-106 | a row is matched exactly when it fits best, alone; the interface is new exactly when no row fits and its names are free |
| LxcApplied.PrimariesKept | netbox_sync/lxc_network_writes.py:43-160 | a primary address or primary MAC changes only on a VM of the batch whose link no provider owns and whose container offers one IPv4 address, and only on a row whose interface has a MAC |
| LxcAcceptance.DisplayIs | netbox_sync/interface_display.py:6-15 | the display name is the label, unless it is too long or another interface carries it ignoring case; then it ends with the interface's key or hash and keeps within 64 characters |
| LxcAcceptance.FieldsTakenIff | netbox_sync/netbox_vm_interface_metadata.py:93-132 | stored fields are refused exactly for identity metadata that cannot be merged, original names of another shape, or observations of another shape when there are new ones |
| LxcAcceptance.NicPassesIff | netbox_sync/lxc_network_preflight.py:71-317 | an interface passes exactly when the rows can be read, it has one best row or none with free names, that row's fields can be extended, and its MAC and addresses are unique and owned by nobody else |
| LxcAcceptance.ContainerPassesIff | netbox_sync/lxc_network_preflight.py:320-388 | a container passes exactly when one VM of the cluster fits it best, display names differ, and every interface passes without displacing another row |
| LxcAcceptance.BatchPassesIff | netbox_sync/lxc_network_preflight.py:391-416 | a batch is accepted exactly when every container passes and no MAC and no scoped address was discovered twice |
| LxcSecondApply.SeparateBatchConverges | netbox_sync/lxc_network_preflight.py:320-416 | for a separate batch the second preflight passes and the second write phase logs nothing |
| LxcNecessity.SecondApplyWritesNothingIffSeparate | netbox_sync/lxc_network_preflight.py:320-416 | the second apply passes and writes nothing if and only if no two jobs contend for a record, a name, a former key or a primary address |
| LxcSwappedNames.SwappedNamesDoNotConverge | netbox_sync/netbox_vm_interface_metadata.py:57-77 | a container whose two interfaces carry each other's key as name passes, yet its second apply does not |
| LxcOwnership.EveryWriteKeepsOwnership | netbox_sync/lxc_network_writes.py:7-133 | after every single write all assignments, primary MACs, row owners and foreign metadata (other fields, namespaces, name keys and instances) are as before |
| LxcOwnership.EveryWriteKeepsNamesUnique | netbox_sync/interface_display.py:18-29 | unique names stay unique after every single write when same-VM jobs have distinct names |
| LxcOwnership.SharedNameEndsDuplicated | netbox_sync/interface_display.py:18-29 | if the batch ends with unique names then same-VM jobs had distinct names |
| LxcOwnership.NamesStayUniqueIffDistinct | netbox_sync/interface_display.py:18-29 | names stay unique after every single write if and only if same-VM jobs have distinct names |
| LxcNames.NameOrigin | netbox_sync/lxc_network_writes.py:7-40 | at any point every row has its old name and place or those of the last step that named it |
| LxcNames.NamesStayUniqueIffClear | netbox_sync/lxc_network_preflight.py:334-357 | for every accepted batch names stay unique after every single write if and only if no name is given again before the row that had it was renamed |
| LxcSharedVm.SharedVmEndsDuplicated | netbox_sync/lxc_network_preflight.py:334-357 | two containers recorded on one VM, with `eth0` and `ETH0`, pass the per-container name checks and still end with a duplicate name, ignoring case |
| EsxiRecords.NetworkOfIsNetwork | netbox_sync/esxi_adoption.py:183-204 | the naive scan over all ports and assignments exists for every object |
| EsxiRecords.NetworkIsUnique | netbox_sync/esxi_adoption.py:183-204 | the naive scan has one answer |
| EsxiNetworkIndex.AssignedValues | netbox_sync/esxi_adoption.py:171-181 | the assignment dictionary agrees with a scan, owner by owner |
| EsxiNetworkIndex.IndexPorts | netbox_sync/esxi_adoption.py:161-166 | the owner dictionary lists exactly the ports of each owner and leaves the other kind alone |
| EsxiNetworkIndex.NetworkIndex.constructor | netbox_sync/esxi_adoption.py:151-169 | all indexes are those of the snapshot |
| EsxiNetworkIndex.NetworkIndex.ForObject | netbox_sync/esxi_adoption.py:183-204 | remembered or computed, the answer is the naive scan of the object |
| EsxiNetworkIndex.AnswerAll | netbox_sync/esxi_adoption.py:183-204 | any sequence of queries on one snapshot is answered by the naive scan |
| EsxiAdoption.FindCarriers | netbox_sync/esxi_adoption.py:241-265 | the managing records are those carrying the identity; a broken record on the way refuses the plan |
| EsxiAdoption.FindCandidates | netbox_sync/esxi_adoption.py:294-320 | the candidates are the target records correlated by name or by the naive network scan, with their conflicts |
| EsxiAdoption.ClassifyLive | netbox_sync/esxi_adoption.py:264-343 | the item equals the classification on naive evidence, whose meaning on the records is EsxiAdoptionVerdicts.VerdictIs |
| EsxiAdoption.SelectedIsSole | netbox_sync/esxi_adoption.py:264-343 | a selected object is the item's only candidate; managed items select one |
| EsxiAdoption.MarkShared | netbox_sync/esxi_adoption.py:369-386 | exactly the items with a candidate another item of the kind lists become ambiguous |
| EsxiAdoption.BuildAdoptionPlan | netbox_sync/esxi_adoption.py:389-489 | the plan has one item per discovered object after the shared-claim and retained-name passes, or is refused |
| EsxiAdoption.ContestedSelectsNothing | netbox_sync/esxi_adoption.py:369-482 | a contested item selects nothing and is never managed in the finished plan, retained names included |
| EsxiAdoption.SelectedObjectsAreDistinct | netbox_sync/esxi_adoption.py:369-489 | no object of a kind is selected for two discovered objects |
| EsxiAdoption.RepeatedVmIsNotManaged | netbox_sync/esxi_adoption.py:369-489 | a machine reported twice under one identity is never managed |
| EsxiAdoptionVerdicts.VerdictIs | netbox_sync/esxi_adoption.py:264-343 | managed exactly by a sole managing record in scope; otherwise unmatched without a related record, taken over exactly from the sole related record that carries no identity and contradicts neither addresses nor MACs, safely if and only if it shares one, and ambiguous in all other cases; the candidates are exactly the managing or else the related records, once each, with true evidence |
| EsxiAdoptionVerdicts.PlanVerdictIs | netbox_sync/esxi_adoption.py:369-489 | in the finished plan an object of which a record is listed for another object too selects nothing, RETAINED_NAME is exactly a name kept by the record of a vanished machine of this source, and every other item is its own verdict |
| EsxiAdoptionVerdicts.ClassifyFails | netbox_sync/esxi_adoption.py:241-290 | one object stops the plan exactly when a broken identity record is met or needed hardware evidence is refused |
| EsxiAdoptionVerdicts.PlanIsAccepted | netbox_sync/esxi_adoption.py:389-489 | the plan is refused exactly for a broken device record, a lost host, an object that cannot be classified, or a machine whose sole record is broken and out of scope or listed twice |
| EsxiRecords.CanonicalIpIs | netbox_sync/esxi_adoption.py:117-126 | addresses are compared exactly when parsed and not reserved, without their prefix length |
| EsxiRecords.HexDigitsJoin | netbox_sync/esxi_adoption.py:129-135 | only the hexadecimal digits of a MAC text count, in order, whatever stands between them |
| EsxiRecords.HexDigitsOne | netbox_sync/esxi_adoption.py:129-135 | a character counts exactly when it is a hexadecimal digit |
| EsxiMigration.IndexIpOwners | netbox_sync/esxi_migration.py:161-173 | the dictionary gives the recorded owners of every address in listing order |
| EsxiMigration.IndexMacOwners | netbox_sync/esxi_migration.py:174-186 | the dictionary gives the recorded owners of every MAC in listing order |
| EsxiMigration.HitsOfSignal | netbox_sync/esxi_migration.py:301-319 | one address adds its signal to exactly the existing ports it is assigned to, and conflicts on any other assignment |
| EsxiMigration.NetworkHits | netbox_sync/esxi_migration.py:284-320 | hits, conflict and duplicate flags agree with a scan of all assignments |
| EsxiMigration.CorrelateLive | netbox_sync/esxi_migration.py:323-452 | the item equals the correlation on naive evidence, whose meaning on the records is EsxiPortVerdicts.VerdictIs |
| EsxiMigration.ClaimsAreOwned | netbox_sync/esxi_migration.py:323-452 | a matching or reusing item claims only ports of its parent |
| EsxiPortVerdicts.VerdictIs | netbox_sync/esxi_migration.py:323-452 | without an identity match: a conflict if and only if a discovered address or MAC is recorded on anything but an interface of the parent; then ambiguous when recorded twice; then the sole interface that carries a value, matched or reused by its name, or else the sole one of that name; creation when nothing is there; the candidates shown are exactly the interfaces that led to the verdict |
| EsxiPortVerdicts.IdentityDecides | netbox_sync/esxi_migration.py:336-365 | with identity matches the single one is kept and several are ambiguous |
| EsxiPortVerdicts.BestAre | netbox_sync/esxi_migration.py:323-365 | the identity matches are exactly the interfaces of the highest rank |
| EsxiPortVerdicts.PortRankIs | netbox_sync/source_identity.py:139-159 | an interface ranks by its v2 identity, then by the v1 identity of the legacy owner |
| EsxiPortVerdicts.ResultVerdicts | netbox_sync/esxi_migration.py:502-574 | every result carries its adoption item over and has one such verdict per discovered interface, management address included; exactly the items that take one interface twice are taken back |
| EsxiPortVerdicts.ItemForIsLast | netbox_sync/esxi_migration.py:502-574 | an object is migrated by the adoption item recorded last under its identity |
| EsxiPortVerdicts.PlanResults | netbox_sync/esxi_migration.py:502-574 | the whole plan has one result per discovered object, in order, each as its adoption item and the interface verdicts say |
| EsxiPortVerdicts.PlanIsAccepted | netbox_sync/esxi_migration.py:502-574 | the plan exists exactly when the adoption plan does and no managed machine meets a broken interface record |
| EsxiMigration.MarkSharedPorts | netbox_sync/esxi_migration.py:455-477 | exactly the claiming items that share a port with another claiming item become ambiguous |
| EsxiMigration.MarkedClaimsOnce | netbox_sync/esxi_migration.py:455-477 | within one parent no port is claimed twice after marking |
| EsxiMigration.ClaimantsDiffer | netbox_sync/esxi_migration.py:502-574 | two visits that claim ports do so through different selected objects, unless they are hosts with one id |
| EsxiMigration.ClaimedTwiceByOneId | netbox_sync/esxi_migration.py:455-574 | for all discovered hosts, two items that claim one interface are the same item or belong to two hosts with one id |
| EsxiMigration.NoInterfaceClaimedTwice | netbox_sync/esxi_migration.py:455-574 | for distinct host ids no interface of a kind is the candidate of two claiming items anywhere in the plan |
| EsxiMigration.SingleClaimsIff | netbox_sync/esxi_migration.py:502-574 | for all discovered hosts every interface is claimed once if and only if no two hosts with one id, correlated with the device of the last item under that id, claim one interface that neither contests |
| EsxiRepeatedHost.RepeatedHostClaimsTwice | netbox_sync/esxi_migration.py:502-574 | two hosts with one id, one of them matched by hardware, both claim the same interface |
| EsxiVmIdentity.KeyRoundTrip | netbox_sync/esxi_vm_identity.py:17-31 | a text parses to an instance and BIOS pair if and only if it is the key built from them |
| EsxiVmIdentity.ParseKeyIs | netbox_sync/esxi_vm_identity.py:17-31 | a key is exactly the prefix with two UUIDs, other text with the prefix is malformed, all other text is no key |
| EsxiVmIdentity.UuidIs | netbox_sync/esxi_vm_identity.py:17-31 | a UUID is five groups of lower-case hexadecimal digits joined by dashes, not all zero |
| EsxiVmIdentity.FileRecords | netbox_sync/esxi_vm_identity.py:67-85 | the three dictionaries say exactly what the records say; an unreadable identity stops the loop |
| EsxiVmIdentity.Resolve | netbox_sync/esxi_vm_identity.py:34-171 | no blockers if and only if there is no conflict, and then every machine has its specified id |
| EsxiVmIdentity.RecordedKeyIsKept | netbox_sync/esxi_vm_identity.py:110-171 | without conflict a machine whose BIOS occurs in a recorded key gets exactly that key, owned by one record |
| EsxiVmIdentity.AssignedKeysAreDistinct | netbox_sync/esxi_vm_identity.py:110-171 | each assigned key goes to one machine |
| EsxiVmIdentity.InstancesEndDistinct | netbox_sync/esxi_vm_identity.py:110-171 | without conflict machines with an instance UUID end with pairwise distinct ids |
| EsxiVmIdentity.NewKeyIsUnowned | netbox_sync/esxi_vm_identity.py:127-139 | a key built for a newly shared instance UUID is owned by no record |
| EsxiVmVerdicts.InstanceVerdictIs | netbox_sync/esxi_vm_identity.py:110-150 | what becomes of a machine with an instance UUID, on the machines and recorded keys: when it keeps its id, which key it gets, and when it is blocked |
| EsxiVmVerdicts.FallbackVerdictIs | netbox_sync/esxi_vm_identity.py:150-171 | the same for a machine that lost its instance UUID |
| EsxiVmVerdicts.IndistinctIs | netbox_sync/esxi_vm_identity.py:34-66 | machines that share an instance UUID conflict exactly when their BIOS UUIDs do not tell them apart |
| CatalogJournal.DispatchKeeps | netbox_sync/catalog_creation.py:374-402 | every prefix of journal, intent, child and outcome keeps the journal invariant |
| CatalogJournal.EveryRunKeeps | netbox_sync/catalog_creation.py:273-402 | over every run with interruptions after any write or call: intents point to journals of their digest, every call was journalled first, and effective creates hold their intent |
| CatalogJournal.AtMostOneEffectiveCreate | netbox_sync/catalog_creation.py:349-402 | each digest has at most one dispatched create that was not refused |
| CatalogJournal.OneObjectPerDigest | netbox_sync/catalog_creation.py:250-402 | creates and resumptions of one digest that may have taken effect make one object: the same call when unguarded, the same operation and nonce when guarded |
| CatalogJournal.CreatedIsTerminal | netbox_sync/catalog_creation.py:273-402 | a journal marked CREATED is never written again |
| CatalogJournal.GuardCreatesAgree | netbox_sync/catalog_creation.py:250-271 | all creates and resumptions of one operation carry one digest, with the operation as nonce |
| CatalogJournal.RegistrationReportsItsOwn | netbox_sync/bootstrap_worker.py:95-128 | a registration that reports CREATED has its own CREATED journal, earned by its own create when unguarded |
| CatalogJournal.CatalogCreation.Dispatch | netbox_sync/catalog_creation.py:374-402 | journal and intent are durable before the child; the outcome is written last; any interruption leaves a prefix |
| CatalogJournal.CatalogCreation.ReconcileGuard | netbox_sync/catalog_creation.py:250-271 | a receipt or resumption writes the journal only for CREATED |
| CatalogJournal.CatalogCreation.Reconcile | netbox_sync/catalog_creation.py:300-325 | an unguarded reconciliation records review or uncertainty, never creation |
| CatalogJournal.UninterruptedDoes | netbox_sync/catalog_creation.py:273-402 | what every uninterrupted request leaves and replies, from any store: a first create, or one after a proven refusal, records journal and intent, sends once and shows the recorded answer; known operations are shown, resumed or refused; a read records review or uncertainty |
| CatalogJournal.CatalogCreation.Create | netbox_sync/catalog_creation.py:326-402 | replays, conflicts, earlier intents and proven refusals are handled before any dispatch |
| CatalogJournal.CatalogCreation.Request | netbox_sync/catalog_creation.py:273-402 | each request takes the specified step, interrupted or not, and keeps the invariant; when it replies, store and reply are those of the table, and with room for four effects it replies |
| BootstrapService.BootstrapStore.ConfigureEndpoint | netbox_sync/bootstrap_state.py:141-201 | replaces endpoint and both tokens exactly under the revision, completion, replacement and busy guards, leaves READY, and keeps the invariants of validation and preparation |
| BootstrapService.BootstrapStore.Begin | netbox_sync/bootstrap_state.py:203-220 | opens an attempt exactly when none is open, nothing is being prepared, the last validation is stale and there are credentials; its id is new, its probe starts with the stored credentials, which are kept; both invariants hold |
| BootstrapService.BootstrapStore.Publish | netbox_sync/bootstrap_state.py:225-292 | the current attempt becomes VALIDATED exactly when its probe accepted, for the credentials it was started with, else ATTENTION; a superseded probe changes nothing; both invariants hold |
| BootstrapService.BootstrapStore.Refresh | netbox_sync/bootstrap_state.py:127-139 | exactly the attempt and the preparation past their limits are closed; credentials, READY and the marker are kept; both invariants hold |
| BootstrapService.BootstrapStore.Complete | netbox_sync/bootstrap_state.py:294-307 | succeeds exactly from a fresh VALIDATED or READY at the revision, and then some probe accepted exactly the stored credentials |
| BootstrapService.BootstrapStore.HandOut | netbox_sync/bootstrap_state.py:310-322 | credentials are handed out exactly when READY, and some probe accepted exactly them |
| BootstrapService.BootstrapStore.ReadPlan | netbox_sync/bootstrap_setup.py:62-69 | an inventory read is taken for a plan exactly at the current revision, with credentials and nothing else in progress |
| BootstrapService.BootstrapStore.ReplacePlan | netbox_sync/bootstrap_setup.py:70-89 | a new plan of the read fields releases the journal and drops the marker exactly when the read shows its field; both invariants hold |
| BootstrapService.BootstrapStore.CancelPlan | netbox_sync/bootstrap_setup.py:98-107 | cancelling keeps a standing marker; both invariants hold |
| BootstrapService.BootstrapStore.StartAttempt | netbox_sync/bootstrap_setup.py:153-183 | starts exactly a confirmed, planned, unmarked, unblocked plan of this revision and digest that is at most 300 seconds old, and then every POST of unknown outcome has been shown by an inventory read |
| BootstrapService.BootstrapStore.SaveUpdate | netbox_sync/bootstrap_setup.py:115-121 | only the owning run changes the journal, to exactly the saved marker, status and fields; a run that lost it ends; both invariants hold |
| BootstrapReadiness.RunKeeps | netbox_sync/bootstrap_state.py:127-307 | over every interleaving VALIDATED and READY are backed by an accepting probe of the stored credentials |
| BootstrapReadiness.HandedOutCredentialsWereProbed | netbox_sync/bootstrap_state.py:310-322 | credentials handed out are the stored ones and some probe accepted exactly them |
| BootstrapReadiness.SupersededNeverPublishes | netbox_sync/bootstrap_state.py:225-232 | a superseded probe never publishes again, however late |
| BootstrapPreparation.RunKeeps | netbox_sync/bootstrap_setup.py:62-235 | over every interleaving an unresolved POST is covered by the marker or a read that showed its field |
| BootstrapPreparation.NoBlindRetry | netbox_sync/bootstrap_setup.py:62-235 | after a POST with unknown outcome its attempt sends nothing more, and a later attempt that sends started after the field was seen; every POST has a saved marker of its run |
| BootstrapPreparation.SupersededSendsNothing | netbox_sync/bootstrap_setup.py:109-121 | a run that lost the journal never sends another POST |
| BootstrapPreparation.StartReads | netbox_sync/bootstrap_setup.py:153-199 | a started attempt that reads the planned fields has exactly the missing ones to create |
| BootstrapPreparation.EveryFieldCreated | netbox_sync/bootstrap_setup.py:195-223 | when every answer is a creation, every missing field is posted once, in order, and no marker is left |
| BootstrapPreparation.MissingJoin | netbox_sync/bootstrap_setup.py:195-197 | the fields to create are the missing ones of the plan, in order |
| BootstrapPreparation.StaleReadEnds | netbox_sync/bootstrap_setup.py:153-194 | a read of other fields than those confirmed ends the attempt before it sends anything |
| BootstrapPreparation.AnswerDecides | netbox_sync/bootstrap_setup.py:201-223 | a known creation clears the marker and goes on, a refusal or unsent POST clears it and ends with its status, an unknown outcome keeps it |
| BootstrapPreparation.Doubting | netbox_sync/bootstrap_setup.py:215-217 | an attempt of unknown outcome ends UNCERTAIN with its marker standing |
| BootstrapPreparation.LastReadEnds | netbox_sync/bootstrap_setup.py:224-226 | with nothing left to create the last read ends the attempt, PREPARED exactly when every field is ready |
| BootstrapPreparation.AttemptPrepares | netbox_sync/bootstrap_setup.py:153-226 | a whole uninterrupted attempt posts exactly the missing fields of the confirmed plan, in order and once each, leaves no marker, and ends PREPARED exactly when the last read shows every field ready |
| BootstrapPreparation.Preparation.ExecuteFields | netbox_sync/bootstrap_setup.py:195-223 | the field loop performs exactly marker, POST and outcome per answer while fields are missing, and keeps the invariant |
| ApplyOutcome.ApplyChild.SimulateStages | netbox_sync/netbox_full_apply.py:99-108 | the stages are simulated in order up to the first failing point |
| ApplyOutcome.ApplyChild.WriteStages | netbox_sync/netbox_full_apply.py:137-146 | the API calls of the write stages happen in order up to the first failing one, which leaves the calls before it done |
| ApplyOutcome.ApplyChild.ApplyStages | netbox_sync/netbox_full_apply.py:96-146 | every stage is simulated before the boundary, every write call follows it, and progress stops at the first failing point |
| ApplyOutcome.ApplyChild.Execute | netbox_sync/apply_worker.py:105-188 | outcome, simulations, entry of the write phase and returned calls are those of the first failing point, building the result included |
| ApplyOutcome.WrittenIsNeverDenied | netbox_sync/apply_worker.py:275-522 | once the write phase was entered the confirmed plan was fully simulated, and the report is SUCCEEDED with the token's digest or OUTCOME_UNCERTAIN if and only if the child did not answer that building its result failed, and there is no run repository or the last finish_run succeeded |
| ApplyOutcome.EveryRunReportsSoundly | netbox_sync/apply_worker.py:412-522 | over any run of prepare and apply requests every launched child had its own token, used before its expiry by the actor and for the source it was issued to, ran for the claims of that token, and was reported as above |
| ApplyOutcome.WrittenReportedAsNotWritten | netbox_sync/apply_worker.py:158-188 | a child that fails building its result after every write is reported FAILED_BEFORE_WRITE |
| ApplyOutcome.WrittenReportedAsInternalError | netbox_sync/apply_worker.py:484-519 | a complete write whose run cannot be recorded is reported as the unclassified internal error |
| ApplyOutcome.SucceededMeansAllWritten | netbox_sync/apply_worker.py:412-495 | SUCCEEDED if and only if nothing failed anywhere, and then every call of every stage returned |
| ApplyOutcome.RefusedMeansUntouched | netbox_sync/apply_worker.py:141-187 | a launched child refused with another code than OUTCOME_UNCERTAIN entered the write phase if and only if it failed building its result |
| ApplyOutcome.EarlyRefusalIsExact | netbox_sync/apply_worker.py:105-188 | a child that stops before the boundary is refused with its own code, in the order it looks: failure, unsupported source, stale plan, nothing to change, failure |
| ApplyOutcome.LostAnswerIsUncertain | netbox_sync/apply_worker.py:275-339 | a lost answer of an apply is OUTCOME_UNCERTAIN, wherever the child was |
| ApplyOutcome.StoppedReportIs | netbox_sync/apply_worker.py:105-188 | the report of a child that stops on the confirmed plan, by the point where it stops: uncertain when it died or raised between the boundary and the last write, and else failed before a write |
| ApplyOutcome.CompletedReportIs | netbox_sync/apply_worker.py:466-522 | a completed child is SUCCEEDED exactly when the guard was released, the counts parse and the run was recorded, and else uncertain |
| ApplyOutcome.AnswersArrive | netbox_sync/apply_worker.py:275-370 | a lost plan wrote nothing; an answer that arrives counts as it is, and a code that is not a child's counts as APPLY_FAILED |
| ApplyOutcome.EachTokenLaunchesOnce | netbox_sync/application/confirmation.py:46-71 | no confirmation token launches two children over any run, and each launch uses an unexpired token for the claims, actor and source it was issued for |
| ApplyOutcome.ConsumedEvenIfRefused | netbox_sync/application/confirmation.py:57-71 | a request that reaches its token removes it whatever it then decides, and no other token; one refused at the source lookup or the run record keeps it |
| ApplyOutcome.ApplySupervisor.Prepare | netbox_sync/application/confirmation.py:46-55 | a new token for 300 seconds bound to its claims, given exactly while fewer than 256 are live; other live tokens stay |
| ApplyOutcome.ApplySupervisor.Apply | netbox_sync/apply_worker.py:412-522 | source lookup and run record come before the token is spent; the first failing check refuses with its code; the report is the classification of the one launched child, and without a launch the child is untouched and nothing is reported as succeeded |
| AuthPolicy.RunKeeps | netbox_sync/auth_policy.py:330-436 | over every run receipts carry the current revision, consumes are paid for by issues, and the memory is exactly the last 4096 applied updates |
| AuthPolicy.EvictedIsFirst | netbox_sync/auth_policy.py:379-381 | eviction forgets exactly the oldest applied update of the memory |
| AuthPolicy.OneUpdatePerRevision | netbox_sync/auth_policy.py:330-386 | at most one update is applied per expected revision, however many were forgotten |
| AuthPolicy.RefusedUpdateChangesNothing | netbox_sync/auth_policy.py:330-386 | a refused or replayed update leaves policy, receipts and memory unchanged |
| AuthPolicy.ReplayIsIdempotent | netbox_sync/auth_policy.py:354-359 | after any further run a repeated request changes nothing; it is answered with its own revision if and only if it is admitted for consideration and is among the last 4096 applied updates, and denied otherwise |
| AuthPolicy.ConsumesNeverExceedIssues | netbox_sync/auth_policy.py:388-436 | successful consumes of a receipt never exceed its issues |
| AuthPolicy.FindOldest | netbox_sync/auth_policy.py:380 | the loop finds a change with the least revision |
| AuthPolicy.AuthService.ChangePolicy | netbox_sync/auth_policy.py:330-386 | the reply is decided on the old state alone; an applied update adds or removes exactly its host, clears receipts and is remembered; anything else changes nothing |
| AuthPolicy.AuthService.Remember | netbox_sync/auth_policy.py:379-382 | the memory after one more change, evicting at capacity |
| AuthPolicy.AuthService.Issue | netbox_sync/auth_policy.py:388-405 | issued exactly at the current revision while fewer than 128 receipts are live; the receipt lasts 600 seconds, and only expired ones are dropped |
| AuthPolicy.AuthService.Consume | netbox_sync/auth_policy.py:407-436 | succeeds exactly for a matching live unconsumed receipt of this revision, which it marks, and no other |
| AuthPolicy.AuthService.Cancel | netbox_sync/auth_policy.py:407-417 | withdraws a receipt of the same actor, refuses another actor, and ignores an unknown one |
| AuthPolicy.AuthService.SetManaged | netbox_sync/auth_policy.py:127-134 | a new revision under the given ceiling keeps hosts and memory, and no earlier receipt can be consumed |
| DirectorySessions.RunKeeps | netbox_sync/directory_users.py:26-153 | in every reachable state sessions belong to known active users, at most 256 exist, and roles are the administrator's decisions or viewer |
| DirectorySessions.GrantsAreJustified | netbox_sync/directory_auth.py:38-89 | a granted request has a live session of an active user whose stored role carries the permission; writes were rechecked with the directory |
| DirectorySessions.NobodyOperatesUnassigned | netbox_sync/directory_users.py:45-72 | a role above viewer was set by an administrator since the last reset |
| DirectorySessions.EntitledIsGranted | netbox_sync/directory_auth.py:38-89 | a use is granted if and only if the session is live, the directory confirms it where asked again, and the stored role carries the permission |
| DirectorySessions.LoginIs | netbox_sync/directory_auth.py:91-151 | exactly the active identities the directory answers with are signed in; otherwise nothing changes |
| DirectorySessions.RolesGrow | netbox_sync/roles.py:1-29 | each role may do strictly more than the one below; what a viewer and an operator may do |
| DirectorySessions.SyncedAre | netbox_sync/directory_users.py:74-104 | listed members have the listed state, missing ones stay known but inactive, and roles never change |
| DirectorySessions.SyncKeepsRoles | netbox_sync/directory_users.py:74-104 | a membership snapshot never changes a role |
| DirectorySessions.FindIdlest | netbox_sync/directory_auth.py:139-140 | the loop finds a session idle the longest |
| DirectorySessions.BuildMembers | netbox_sync/directory_users.py:94-99 | the snapshot is accepted exactly when identities are distinct, and gives each member its retained role |
| DirectorySessions.DirectoryAuth.SignIn | netbox_sync/directory_auth.py:91-151 | an active identity gets a session of eight hours with its kept role or viewer; only expired sessions go, and at capacity one idle the longest |
| DirectorySessions.DirectoryAuth.Check | netbox_sync/directory_auth.py:38-89 | granted exactly as entitled; a grant is noted on the session, a refused confirmation ends it, other sessions and all roles stay |
| DirectorySessions.DirectoryAuth.Synchronize | netbox_sync/directory_users.py:74-118 | accepted exactly when complete, bounded and distinct; then users are the known and listed ones with the listed state, missing ones inactive, and exactly the sessions of active listed members stay |
| DirectorySessions.DirectoryAuth.AssignRole | netbox_sync/directory_users.py:120-153 | sets the role of one known user and ends exactly that user's sessions |
| DirectorySessions.DirectoryAuth.SaveSettings | netbox_sync/directory_auth.py:231-269 | ends every session, and a changed directory forgets its users |
| HostReservations.ProofHidesNothing | netbox_sync/host_registration.py:42-75 | a proof never hides a different hardware UUID recorded in the mapping |
| HostReservations.AnchorIs | netbox_sync/host_registration.py:42-90 | which anchor settings claim: a proof that no recorded host contradicts, the only recorded host without a proof, or an observed endpoint |
| HostReservations.ObservedAnchor | netbox_sync/host_registration.py:78-90 | an observed endpoint claims its anchor when nothing else does |
| HostReservations.ReserveKeeps | netbox_sync/host_registration.py:218-298 | a new reservation is the anchor's only claim |
| HostReservations.RegisterKeeps | netbox_sync/host_registration.py:350-413 | a guarded registration keeps the anchor with its reserved source even after losing its locks |
| HostReservations.ObserveKeeps | netbox_sync/legacy_admission.py:115-233 | a decision under the exclusive lock keeps every anchor with one source: ISOLATE claims nothing, OBSERVE an anchor nobody else claims |
| HostReservations.NoAnchorIsShared | netbox_sync/host_registration.py:218-413 | from any tables without a shared anchor, legacy rows included, no interleaving of reservations, registrations, decisions and archivals makes two sources claim one anchor |
| HostReservations.ObserveCommits | netbox_sync/legacy_admission.py:115-233 | an OBSERVE whose checks pass makes a row without an anchor the only claimant of its anchor |
| HostReservations.LocksAreOwned | netbox_sync/host_registration.py:218-413 | over every run each lock belongs to a transaction or session that is still there |
| HostReservations.ReserveRun | netbox_sync/host_registration.py:218-298 | an uninterrupted reservation takes the anchor exactly when it is free, and otherwise leaves everything as it was, locks included |
| HostReservations.RegisterRun | netbox_sync/host_registration.py:350-413 | an uninterrupted guarded registration inserts the reserved source exactly under the same conditions with its own reservation, and otherwise leaves everything as it was |
| HostReservations.ConfirmRun | netbox_sync/legacy_admission.py:115-233 | an uninterrupted decision changes the one row exactly when nobody is admitted, the row claims nothing and nobody else claims what it observes |
| HostReservations.LegacyRowIsQuiet | netbox_sync/legacy_admission.py:115-233 | an enabled row that records nothing about its host is of unknown identity and may be observed |
| HostReservations.HostRegistry.Reserve | netbox_sync/host_registration.py:218-298 | succeeds exactly when the locks are free, no archival is pending, no live row claims the anchor, no live enabled row is of unknown identity, and the reservation is free or this one; then the source is the only claimant |
| HostReservations.HostRegistry.Register | netbox_sync/host_registration.py:350-413 | inserts the reserved source exactly under those conditions with its own reservation; then it is the only claimant |
| HostReservations.HostRegistry.Confirm | netbox_sync/legacy_admission.py:115-233 | quarantines exactly a row without an anchor, under the exclusive lock, observing only an anchor nobody else claims |
| EventHistory.TopOfTop | netbox_sync/esxi_events.py:149-178 | truncating, adding and truncating again is truncating the union |
| EventHistory.FoldKeepsGreatest | netbox_sync/esxi_events.py:149-178 | folding keeps exactly the 1000 greatest events of everything observed |
| EventHistory.BaselineIsFixed | netbox_sync/esxi_events.py:158-161 | once set the baseline never moves |
| EventHistory.BaselineNeverAlerts | netbox_sync/esxi_events.py:158-165 | no event of the first successful observation is ever alert-eligible |
| EventHistory.AlertsExactlyWhenLater | netbox_sync/esxi_events.py:158-165 | a kept event may alert exactly when it is later than every event of the first successful observation |
| EventHistory.Fill | netbox_sync/esxi_events.py:162-165 | the dictionary holds the recorded rows and each unseen event with its eligibility |
| EventHistory.SortRows | netbox_sync/esxi_events.py:177 | the rows are listed once each, by time and then id |
| EventHistory.MergeEvents | netbox_sync/esxi_events.py:149-178 | one merge: baseline, eligibility and the greatest 1000 of history and observation |
| CalendarSchedule.SlotComes | netbox_sync/calendar_schedule.py:29-45 | every valid schedule has a matching day within the next 31 days |
| CalendarSchedule.OrdinalsOrder | netbox_sync/calendar_schedule.py:36-43 | day numbers order dates as the calendar does and identify them |
| CalendarSchedule.WeekdaysCycle | netbox_sync/calendar_schedule.py:36-39 | weekdays run from 1 to 7 and start over |
| CalendarSchedule.KnownWeekdays | netbox_sync/calendar_schedule.py:38-39 | 1 January 2024 is a Monday |
| CalendarSchedule.MonthLengths | netbox_sync/calendar_schedule.py:40-41 | month lengths with the Gregorian leap rule |
| CalendarSchedule.MonthlyMeans | netbox_sync/calendar_schedule.py:40-41 | a monthly day is that day, or the last day of a shorter month |
| CalendarSchedule.NextSlot | netbox_sync/calendar_schedule.py:29-45 | a valid schedule always gets a slot: the least matching wall-clock slot strictly after the instant, among all dates |
| Rollback.UndoExchange | deploy/backup.py:1147-1152 | the two undo moves take an exchange back exactly |
| Rollback.RestoreTree.Exchange | deploy/backup.py:1138-1145 | one directory is exchanged, or nothing changed |
| Rollback.RestoreTree.UndoAll | deploy/backup.py:1147-1153 | undoing in reverse restores the whole tree |
| Rollback.RestoreTree.Publish | deploy/backup.py:1133-1154 | a failed move leaves every directory and the staged tree as before; otherwise all are replaced, also when the cleanup fails after deleting any part of what was set aside; when nothing fails it is published |
| Rollback.PutBackRestores | deploy/install.py:644-654 | however many files were published, the snapshot restores every one |
| Rollback.Deployment.PublishConfiguration | deploy/install.py:630-641 | files are replaced in order up to a failure |
| Rollback.Deployment.RestoreConfiguration | deploy/install.py:644-654 | every listed file gets its old contents, or is removed |
| Rollback.Deployment.Activate | deploy/install.py:722-747 | whichever step fails, config and current link are as before; otherwise both are replaced |

## Left out

- Sockets, subprocesses, TLS, DNS and HTTP: a child call is an arbitrary answer from its declared outcomes.
- SQL text and transactions: tables are maps and advisory locks are lock state.
- Hashing, password verification, UUID generation and secret files.
- Console output and write counters.
- Unicode case folding and normalisation: texts fold and upper-case ASCII letters only.
- The order of `repr` texts in a merged identity list: a fixed total text order stands for it.
- Blank and non-text identity fields: a broken v2 record is one kind of entry.
- NetBox requests that fail or change a record concurrently during the LXC write phase.
- LXC confirmation prompts, target cluster lookup and the report printed before the writes.
- The second duplicate-name check of the LXC preflight, which repeats the first.
- The order of several network candidates of one ESXi interface, and the address lists shown with a candidate.
- Host and machine results of a migration plan are kept in one list tagged by kind.
- The provider's hardware match of a host is an input: refused, none, or one device.
- Scope errors for objects of another source, in adoption, identity resolution and event merging.
- Applying an adoption plan, and ESXi runtime filtering of managed machines.
- The participants shown with an identity conflict: the model gives the blocked values.
- Journals that cannot be read, and the schema checks of catalog objects beyond valid or not.
- The fields shown with an unsent prerequisite POST.
- Revocation of the setup token and the bookkeeping of created field names in a preparation.
- Run history records and the reviewed-plan store of the apply supervisor: their refusals are inputs.
- Local sessions, throttling, enrolment and login of the auth service: a request is authorized or not.
- Policy size bounds in bytes: whether a policy fits is an input.
- LDAP attempt limits, directory settings tests and bind secrets.
- Reservation intents, releases, recovery and archive re-verification.
- Conversion of a calendar slot to UTC, and dates after year 9999.
- systemd unit files and running containers during an activation.
- EsxiMigration.NoInterfaceClaimedTwice: requires distinct host ids, because hardware evidence can manage one of two hosts that share an id; EsxiMigration.SingleClaimsIff has the exact condition without it.
- LxcOwnership.NamesStayUniqueIffDistinct: the converse is stated for batches whose jobs use distinct records, because jobs that share a record overwrite each other's name; LxcNames.NamesStayUniqueIffClear has no such limit.
- LxcOwnership.SharedNameEndsDuplicated: is limited to distinct records for the same reason.
- Closing the lock file of an apply and writing the child's answer to its pipe are taken to succeed or to lose the answer.
- Describing a failure of the executor (`_failure` in its handler) is taken to succeed: a raise there would also be printed as FAILED_BEFORE_WRITE.
