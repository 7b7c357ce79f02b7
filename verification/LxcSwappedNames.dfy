/**
 A container whose two interfaces carry each other's provider key as their name: accepted by the
 preflight, but its second apply is refused because each row also answers to the former key of the other.
 */
module LxcSwappedNames {
  import opened Wrappers
  import opened Texts
  import opened SourceIdentities
  import opened Guests
  import opened LxcNetworks
  import opened LxcConvergence
  import opened LxcNecessity

  const FIRST := Nic("net1", None, Some("net0"), "", None, None, [], None, None)
  const SECOND := Nic("net0", None, Some("net1"), "", None, None, [], None, None)
  const SWAPPED := Container("proxmox", "lab", "100", "100", false, [FIRST, SECOND])

  /** One matching VM in cluster 7, no interfaces yet. */
  const EMPTY_VM := NetBox(map[1 := Vm(Entries([V2(LxcIdentity(SWAPPED))]), Some(7), false)], map[], map[], map[],
    map[], map[])

  lemma SwappedVm()
    ensures FindVm(EMPTY_VM, 7, SWAPPED) == Some(1)
  {
    var list := [V2(LxcIdentity(SWAPPED))];
    assert Scan(list, LxcIdentity(SWAPPED)) == Some(true);
    assert VmRank(EMPTY_VM, 1, SWAPPED) == V2_MATCH;
    assert VmMatches(EMPTY_VM, SWAPPED) == {1};
  }

  lemma SwappedNicPasses(n: Nic)
    requires n in SWAPPED.nics
    ensures FindInterface(EMPTY_VM, 1, SWAPPED, n) == Absent
    ensures NicPasses(EMPTY_VM, 1, SWAPPED, n)
  {
  }

  lemma SwappedDisplay()
    ensures Display(SWAPPED, FIRST) == "net1" && Display(SWAPPED, SECOND) == "net0"
    ensures Fold("net1") != Fold("net0")
  {
    assert Fold("net1")[3] == '1' && Fold("net0")[3] == '0';
    assert Fold(BaseName(FIRST)) == Fold("net1") && Fold(BaseName(SECOND)) == Fold("net0");
    assert SWAPPED.nics[1..] == [SECOND] && [SECOND][1..] == [];
    assert CountBase([SECOND], Fold("net0")) == 1 && CountBase([SECOND], Fold("net1")) == 0;
  }

  lemma SwappedContainerPasses()
    ensures ContainerPasses(EMPTY_VM, 7, SWAPPED)
  {
    hide FindVm, NicPasses, FindInterface, Display, Fold;
    SwappedVm();
    SwappedDisplay();
    forall n | n in SWAPPED.nics
      ensures NicPasses(EMPTY_VM, 1, SWAPPED, n)
    {
      SwappedNicPasses(n);
    }
    assert Rows(EMPTY_VM, 1) == {};
  }

  lemma SwappedJobs()
    ensures Jobs([SWAPPED]) == [Job(SWAPPED, FIRST), Job(SWAPPED, SECOND)]
  {
    assert NicJobs(SWAPPED, [SECOND]) == [Job(SWAPPED, SECOND)];
    assert SWAPPED.nics[1..] == [SECOND];
    assert Jobs([SWAPPED]) == NicJobs(SWAPPED, SWAPPED.nics) + Jobs([]);
  }

  lemma SwappedPasses()
    ensures Passes(EMPTY_VM, 7, [SWAPPED])
  {
    hide ContainerPasses, Jobs;
    SwappedContainerPasses();
    SwappedJobs();
    var jobs := [Job(SWAPPED, FIRST), Job(SWAPPED, SECOND)];
    assert jobs[1..] == [Job(SWAPPED, SECOND)];
    assert jobs[1..][1..] == [] && Keys(SECOND) == [];
    assert Discovered(jobs[1..]) == [] && DiscoveredIps(jobs[1..]) == [];
  }

  lemma SwappedKeys()
    ensures NicIdentity(SWAPPED, FIRST) != NicIdentity(SWAPPED, SECOND)
    ensures ReadsFormer(SWAPPED, FIRST) && FormerNicIdentity(SWAPPED, FIRST) == NicIdentity(SWAPPED, SECOND)
    ensures !Hidden(EMPTY_VM, 1, Job(SWAPPED, FIRST), Job(SWAPPED, SECOND))
  {
    assert NicIdentity(SWAPPED, FIRST).externalId == "100:net0"
      && NicIdentity(SWAPPED, SECOND).externalId == "100:net1";
  }

  /** The promise that a second apply writes nothing fails for this batch, whatever ids NetBox assigns. */
  lemma SwappedNamesDoNotConverge(ids: Ids, ids2: Ids)
    requires FreshIds(EMPTY_VM, ids)
    ensures Batch(EMPTY_VM, ids, 7, [SWAPPED])
    ensures var after := Applied(EMPTY_VM, ids, 7, [SWAPPED]);
      !(Passes(after, 7, [SWAPPED]) && Log(after, Steps(after, ids2, 7, [SWAPPED])) == [])
  {
    hide ContainerPasses, NoRepeats, Discovered, DiscoveredIps, Jobs, FreshIds, FindVm, NicIdentity,
         FormerNicIdentity, ReadsFormer, Hidden, Steps, Log, Run, DistinctRecords, DistinctNames, DistinctPrimaries;
    SwappedPasses();
    SwappedVm();
    SwappedKeys();
    SwappedJobs();
    assert !DistinctKeys(EMPTY_VM, 7, [SWAPPED]) by {
      var a, b := Job(SWAPPED, FIRST), Job(SWAPPED, SECOND);
      assert a in Jobs([SWAPPED]) && b in Jobs([SWAPPED]) && VmFor(EMPTY_VM, 7, SWAPPED) == 1;
    }
    SecondApplyWritesNothingIffSeparate(EMPTY_VM, ids, ids2, 7, [SWAPPED]);
  }
}
