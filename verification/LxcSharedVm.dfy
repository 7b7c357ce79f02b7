/**
 Two containers whose identities are recorded on one VM, with interfaces `eth0` and `ETH0`: accepted by the
 preflight, which checks names per container, but the batch ends with two names that differ only in case.
 */
module LxcSharedVm {
  import opened Wrappers
  import opened Texts
  import opened SourceIdentities
  import opened Guests
  import opened LxcNetworks
  import opened LxcConvergence
  import opened LxcOwnership

  const LOWER := Nic("eth0", None, None, "", None, None, [], None, None)
  const UPPER := Nic("ETH0", None, None, "", None, None, [], None, None)
  const LEFT := Container("proxmox", "lab", "100", "100", false, [LOWER])
  const RIGHT := Container("proxmox", "lab", "101", "101", false, [UPPER])

  /** One VM in cluster 7 carrying both identities, no interfaces yet. */
  const BOTH := NetBox(map[1 := Vm(Entries([V2(LxcIdentity(LEFT)), V2(LxcIdentity(RIGHT))]), Some(7), false)],
                       map[], map[], map[], map[], map[])

  lemma SharedFind(c: Container)
    requires c == LEFT || c == RIGHT
    ensures FindVm(BOTH, 7, c) == Some(1)
  {
    var list := [V2(LxcIdentity(LEFT)), V2(LxcIdentity(RIGHT))];
    assert list[1..] == [V2(LxcIdentity(RIGHT))];
    assert Scan(list[1..], LxcIdentity(RIGHT)) == Some(true);
    assert Scan(list, LxcIdentity(c)) == Some(true);
    assert VmRank(BOTH, 1, c) == V2_MATCH;
    assert VmMatches(BOTH, c) == {1};
  }

  lemma SharedNicPasses(c: Container)
    requires c == LEFT || c == RIGHT
    ensures FindInterface(BOTH, 1, c, c.nics[0]) == Absent
    ensures NicPasses(BOTH, 1, c, c.nics[0])
  {
  }

  lemma SharedContainerPasses(c: Container)
    requires c == LEFT || c == RIGHT
    ensures ContainerPasses(BOTH, 7, c)
  {
    hide FindVm, NicPasses, FindInterface, Display, Fold;
    SharedFind(c);
    SharedNicPasses(c);
    assert Rows(BOTH, 1) == {};
  }

  lemma SharedJobs()
    ensures Jobs([LEFT, RIGHT]) == [Job(LEFT, LOWER), Job(RIGHT, UPPER)]
  {
    assert NicJobs(LEFT, [LOWER]) == [Job(LEFT, LOWER)] && NicJobs(RIGHT, [UPPER]) == [Job(RIGHT, UPPER)];
    assert [LEFT, RIGHT][1..] == [RIGHT];
    assert Jobs([RIGHT]) == NicJobs(RIGHT, [UPPER]) + Jobs([]);
  }

  lemma SharedPasses()
    ensures Passes(BOTH, 7, [LEFT, RIGHT])
  {
    hide ContainerPasses, Jobs;
    SharedContainerPasses(LEFT);
    SharedContainerPasses(RIGHT);
    SharedJobs();
    var jobs := [Job(LEFT, LOWER), Job(RIGHT, UPPER)];
    assert jobs[1..] == [Job(RIGHT, UPPER)];
    assert jobs[1..][1..] == [] && Keys(UPPER) == [];
    assert Discovered(jobs[1..]) == [] && DiscoveredIps(jobs[1..]) == [];
  }

  lemma SharedIdentities()
    ensures NicIdentity(LEFT, LOWER) != NicIdentity(RIGHT, UPPER)
    ensures SameNamespace(V2(NicIdentity(LEFT, LOWER)), NicIdentity(LEFT, LOWER))
    ensures SameNamespace(V2(NicIdentity(RIGHT, UPPER)), NicIdentity(LEFT, LOWER))
    ensures Display(LEFT, LOWER) == "eth0" && Display(RIGHT, UPPER) == "ETH0"
    ensures Fold(Display(LEFT, LOWER)) == Fold(Display(RIGHT, UPPER))
  {
    assert NicIdentity(LEFT, LOWER).externalId == "100:eth0" && NicIdentity(RIGHT, UPPER).externalId == "101:ETH0";
    assert NicIdentity(LEFT, LOWER).externalId[2] == '0' && NicIdentity(RIGHT, UPPER).externalId[2] == '1';
    assert CountBase([LOWER], Fold(BaseName(LOWER))) == 1 && CountBase([UPPER], Fold(BaseName(UPPER))) == 1;
    assert Fold("eth0") == "eth0" && Fold("ETH0") == "eth0";
  }

  lemma SharedBatch(ids: Ids)
    requires FreshIds(BOTH, ids)
    ensures Batch(BOTH, ids, 7, [LEFT, RIGHT])
  {
    hide Passes, Jobs, FreshIds, NicIdentity;
    SharedPasses();
    SharedJobs();
    SharedIdentities();
  }

  lemma SharedVms()
    ensures VmFor(BOTH, 7, LEFT) == 1 && VmFor(BOTH, 7, RIGHT) == 1
  {
    hide FindVm;
    SharedFind(LEFT);
    SharedFind(RIGHT);
  }

  lemma SharedRecords()
    requires Passes(BOTH, 7, [LEFT, RIGHT])
    ensures DistinctRecords(BOTH, 7, [LEFT, RIGHT])
  {
    hide Passes, Jobs, VmFor, FindInterface, NicPasses;
    SharedJobs();
    SharedVms();
    SharedNicPasses(LEFT);
    SharedNicPasses(RIGHT);
  }

  lemma SharedNames()
    requires Passes(BOTH, 7, [LEFT, RIGHT])
    ensures !DistinctNames(BOTH, 7, [LEFT, RIGHT])
  {
    hide Passes, Jobs, VmFor, Display, Fold, NicIdentity, SameNamespace;
    SharedJobs();
    SharedVms();
    SharedIdentities();
    var a, b := Job(LEFT, LOWER), Job(RIGHT, UPPER);
    assert a in Jobs([LEFT, RIGHT]) && b in Jobs([LEFT, RIGHT]) && a.c.vmid != b.c.vmid;
  }

  lemma SharedNamespace()
    ensures forall j :: j in Jobs([LEFT, RIGHT]) ==> SameNamespace(V2(NicIdentity(j.c, j.n)), NicIdentity(LEFT, LOWER))
  {
  }

  /** The promise that unique names stay unique fails for this batch, whatever ids NetBox assigns. */
  lemma SharedVmEndsDuplicated(ids: Ids)
    requires FreshIds(BOTH, ids)
    ensures Batch(BOTH, ids, 7, [LEFT, RIGHT]) && UniqueNames(BOTH)
    ensures !AlwaysUnique(BOTH, Log(BOTH, Steps(BOTH, ids, 7, [LEFT, RIGHT])))
  {
    SharedPasses();
    SharedBatch(ids);
    assert UniqueNames(BOTH);
    hide Jobs, FreshIds, NicIdentity, Steps, Log, Replay, SameNamespace, DistinctNames, DistinctRecords, UniqueNames,
         AlwaysUnique, ContainerPasses;
    SharedRecords();
    SharedNames();
    SharedNamespace();
    NamesStayUniqueIffDistinct(BOTH, ids, 7, [LEFT, RIGHT], NicIdentity(LEFT, LOWER));
  }
}
