/**
 The state an LXC network apply leaves behind passes the preflight again and needs no write.
 */
module LxcSecondApply {
  import opened Wrappers
  import opened Texts
  import opened SourceIdentities
  import opened Guests
  import opened LxcNetworks
  import opened LxcConvergence

  /** `after` meets every goal of the batch planned on `nb`. */
  ghost predicate Reached(nb: NetBox, ids: Ids, cluster: nat, cs: seq<Container>, after: NetBox) {
    && Batch(nb, ids, cluster, cs)
    && DistinctRecords(nb, cluster, cs)
    && (forall s :: s in Steps(nb, ids, cluster, cs) ==> Met(after, s))
    && Untouched(nb, after, Steps(nb, ids, cluster, cs))
  }

  ghost function Desired(nb: NetBox, vm: nat, j: Job): CustomFields
    requires NicPasses(nb, vm, j.c, j.n)
  {
    DesiredFields(j.c, j.n, FieldsOf(nb, FindInterface(nb, vm, j.c, j.n))).value
  }

  lemma SameVm(nb: NetBox, after: NetBox, cluster: nat, c: Container)
    requires after.vms == nb.vms
    ensures FindVm(after, cluster, c) == FindVm(nb, cluster, c)
  {
    assert VmMatches(after, c) == VmMatches(nb, c);
  }

  /** The row of a job after the apply. */
  lemma JobRow(nb: NetBox, ids: Ids, cluster: nat, cs: seq<Container>, after: NetBox, j: Job)
    requires Reached(nb, ids, cluster, cs, after) && j in Jobs(cs)
    ensures var vm := VmFor(nb, cluster, j.c);
      && NicPasses(nb, vm, j.c, j.n)
      && Target(nb, ids, vm, j) in after.interfaces
      && after.interfaces[Target(nb, ids, vm, j)] == Interface(Some(vm), Display(j.c, j.n), true, Desired(nb, vm, j))
  {
    hide FreshIds, DesiredFields, MacPasses, IpsPass, FindInterface, Untouched, DistinctRecords, DisplayName;
    JobPasses(nb, ids, cluster, cs, j);
    var vm := VmFor(nb, cluster, j.c);
    var s := InterfaceStep(nb, ids, vm, j);
    JobStepsMember(nb, ids, vm, j, s);
    assert FromJob(nb, ids, cluster, cs, s, j);
    JobStepIn(nb, ids, cluster, cs, s, j);
    assert Met(after, s);
  }

  /** The fields written for a job: its own identity alone in the namespace, stable, legacy records kept. */
  lemma DesiredFacts(nb: NetBox, vm: nat, j: Job)
    requires NicPasses(nb, vm, j.c, j.n)
    ensures var d := Desired(nb, vm, j);
      && HoldsOnly(d.identities, NicIdentity(j.c, j.n)) && Mergeable(d.identities.list)
      && DesiredFields(j.c, j.n, d) == Some(d)
  {
    hide DesiredFields, MacPasses, IpsPass, FindInterface, HoldsOnly, Mergeable;
    var cf := FieldsOf(nb, FindInterface(nb, vm, j.c, j.n));
    DesiredFieldsAreStable(j.c, j.n, cf);
    DesiredFieldsHoldOnly(j.c, j.n, cf);
  }

  lemma LegacyKept(nb: NetBox, vm: nat, a: Job, b: Job)
    requires NicPasses(nb, vm, b.c, b.n)
    ensures Hidden(nb, vm, a, b) <==>
            a.c.legacyOwner && HasLegacy(Desired(nb, vm, b).identities.list, a.c.source, LegacyNicId(a.c, a.n))
  {
  }

  /** Every row is either the row of one job or exactly as before. */
  lemma RowOrigin(nb: NetBox, ids: Ids, cluster: nat, cs: seq<Container>, after: NetBox, r: nat)
    requires Reached(nb, ids, cluster, cs, after) && r in after.interfaces
    ensures (exists j :: j in Jobs(cs) && r == Target(nb, ids, VmFor(nb, cluster, j.c), j))
            || (r in nb.interfaces && after.interfaces[r] == nb.interfaces[r])
  {
    hide Met, Batch, NicPasses, Target, InterfaceStep, NicSteps, DistinctRecords, Steps;
    assert Passes(nb, cluster, cs) by { JustPasses(nb, ids, cluster, cs); }
    var steps := Steps(nb, ids, cluster, cs);
    if s :| s in steps && s.EnsureInterface? && s.id == r {
      StepOrigin(nb, ids, cluster, cs, s);
      var j :| FromJob(nb, ids, cluster, cs, s, j);
      JobStepKinds(nb, ids, VmFor(nb, cluster, j.c), j, s);
    } else {
      assert SparedInterface(nb, after, r);
    }
  }

  lemma JustPasses(nb: NetBox, ids: Ids, cluster: nat, cs: seq<Container>)
    requires Batch(nb, ids, cluster, cs)
    ensures Passes(nb, cluster, cs) && FreshIds(nb, ids) && OneSource(cs) && InjectiveIdentities(cs)
  {
  }

  /** The rank of a job on any row of its VM after the apply. */
  lemma RankAfter(nb: NetBox, ids: Ids, cluster: nat, cs: seq<Container>, after: NetBox, j: Job, r: nat)
    requires Reached(nb, ids, cluster, cs, after) && DistinctKeys(nb, cluster, cs)
    requires j in Jobs(cs) && r in Rows(after, VmFor(nb, cluster, j.c))
    ensures NicRank(after.interfaces[r].fields.identities, j.c, j.n).Some?
    ensures Rank(after, r, j.c, j.n) <= V2_MATCH
    ensures Rank(after, r, j.c, j.n) == V2_MATCH <==> r == Target(nb, ids, VmFor(nb, cluster, j.c), j)
  {
    hide NicRank, FindInterface, Met, Untouched, Steps, NicPasses, DistinctRecords, Target, HoldsOnly, Mergeable,
         FreshIds, InjectiveIdentities, Passes, HasLegacy, Jobs;
    var vm := VmFor(nb, cluster, j.c);
    JustPasses(nb, ids, cluster, cs);
    JobPasses(nb, ids, cluster, cs, j);
    RowOrigin(nb, ids, cluster, cs, after, r);
    if b :| b in Jobs(cs) && r == Target(nb, ids, VmFor(nb, cluster, b.c), b) {
      JobRow(nb, ids, cluster, cs, after, b);
      DesiredFacts(nb, vm, b);
      if b == j {
        RankOnOwnRecord(after.interfaces[r].fields.identities, j.c, j.n);
      } else {
        if NicIdentity(b.c, b.n) == NicIdentity(j.c, j.n) {
          IdentityNamesOneJob(cs, b, j);
        }
        if r == Target(nb, ids, vm, j) {
          TargetsDistinct(nb, ids, cluster, cs, b, j);
        }
        RankOnForeignRecord(after.interfaces[r].fields.identities, j.c, j.n, NicIdentity(b.c, b.n));
        LegacyKept(nb, vm, j, b);
        NicRankLevels(after.interfaces[r].fields.identities, j.c, j.n);
      }
    } else {
      assert r != Target(nb, ids, vm, j);
      TargetFacts(nb, ids, vm, j);
      OldRowRank(nb, vm, j, after, r);
    }
  }

  lemma TargetFacts(nb: NetBox, ids: Ids, vm: nat, j: Job)
    ensures var f := FindInterface(nb, vm, j.c, j.n);
      Target(nb, ids, vm, j) == if f.At? then f.id else ids.interface(NicIdentity(j.c, j.n))
  {
  }

  lemma OldRowRank(nb: NetBox, vm: nat, j: Job, after: NetBox, r: nat)
    requires NicPasses(nb, vm, j.c, j.n) && r in Rows(after, vm)
    requires r in nb.interfaces && after.interfaces[r] == nb.interfaces[r]
    requires FindInterface(nb, vm, j.c, j.n) != At(r)
    ensures NicRank(after.interfaces[r].fields.identities, j.c, j.n).Some?
    ensures Rank(after, r, j.c, j.n) < V2_MATCH
  {
    hide NicRank, FindInterface;
    OtherRowsRankLow(nb, vm, j.c, j.n, r);
  }

  /** The second preflight finds the record the first apply settled. */
  lemma FoundAgain(nb: NetBox, ids: Ids, cluster: nat, cs: seq<Container>, after: NetBox, j: Job)
    requires Reached(nb, ids, cluster, cs, after) && DistinctKeys(nb, cluster, cs) && j in Jobs(cs)
    ensures var vm := VmFor(nb, cluster, j.c);
      FindInterface(after, vm, j.c, j.n) == At(Target(nb, ids, vm, j))
  {
    hide NicRank, Reached, DistinctKeys, FindInterface, Jobs, NicPasses, Target, Rank;
    var vm := VmFor(nb, cluster, j.c);
    var t := Target(nb, ids, vm, j);
    JobRow(nb, ids, cluster, cs, after, j);
    assert t in Rows(after, vm);
    forall r | r in Rows(after, vm)
      ensures NicRank(after.interfaces[r].fields.identities, j.c, j.n).Some?
      ensures Rank(after, r, j.c, j.n) <= V2_MATCH
      ensures Rank(after, r, j.c, j.n) == V2_MATCH <==> r == t
    {
      RankAfter(nb, ids, cluster, cs, after, j, r);
    }
    assert Best(after, vm, j.c, j.n) == {t};
    FindInterfaceIs(after, vm, j.c, j.n, t);
  }

  lemma NamesAgain(nb: NetBox, ids: Ids, cluster: nat, cs: seq<Container>, after: NetBox, j: Job, r: nat)
    requires Reached(nb, ids, cluster, cs, after) && DistinctNames(nb, cluster, cs) && j in Jobs(cs)
    requires r in Rows(after, VmFor(nb, cluster, j.c))
    requires Fold(after.interfaces[r].name) == Fold(Display(j.c, j.n))
    ensures r == Target(nb, ids, VmFor(nb, cluster, j.c), j)
  {
    hide FindInterface, Met, Untouched, Steps, DistinctRecords, Target, FreshIds, InjectiveIdentities, Fold, Display,
         DesiredFields, MacPasses, IpsPass;
    var vm := VmFor(nb, cluster, j.c);
    JustPasses(nb, ids, cluster, cs);
    JobPasses(nb, ids, cluster, cs, j);
    RowOrigin(nb, ids, cluster, cs, after, r);
    if b :| b in Jobs(cs) && r == Target(nb, ids, VmFor(nb, cluster, b.c), b) {
      JobRow(nb, ids, cluster, cs, after, b);
    } else {
      assert r in Rows(nb, vm);
      assert FindInterface(nb, vm, j.c, j.n) == At(r);
      TargetFacts(nb, ids, vm, j);
    }
  }

  lemma MacSpared(nb: NetBox, ids: Ids, cluster: nat, cs: seq<Container>, after: NetBox, x: nat)
    requires Reached(nb, ids, cluster, cs, after)
    requires forall s :: s in Steps(nb, ids, cluster, cs) && s.EnsureMac? ==> s.id != x
    ensures SparedMac(nb, after, x)
  {
  }

  lemma IpSpared(nb: NetBox, ids: Ids, cluster: nat, cs: seq<Container>, after: NetBox, x: nat)
    requires Reached(nb, ids, cluster, cs, after)
    requires forall s :: s in Steps(nb, ids, cluster, cs) && s.EnsureIp? ==> s.id != x
    ensures SparedIp(nb, after, x)
  {
  }

  lemma MacOrigin(nb: NetBox, ids: Ids, cluster: nat, cs: seq<Container>, after: NetBox, x: nat, address: string)
    requires Reached(nb, ids, cluster, cs, after) && x in MacsAt(after, address)
    ensures x == MacTarget(nb, ids, address) || x in MacsAt(nb, address)
  {
    hide Batch, DistinctRecords, MacTarget, Steps, CanonicalMac, Reached, SparedInterface, SparedIp;
    JustReached(nb, ids, cluster, cs, after);
    JustPasses(nb, ids, cluster, cs);
    var steps := Steps(nb, ids, cluster, cs);
    if u :| u in steps && u.EnsureMac? && u.id == x {
      GoalMet(nb, ids, cluster, cs, after, u);
      StepMacTarget(nb, ids, cluster, cs, u);
    } else {
      MacSpared(nb, ids, cluster, cs, after, x);
    }
  }

  lemma GoalMet(nb: NetBox, ids: Ids, cluster: nat, cs: seq<Container>, after: NetBox, s: Step)
    requires Reached(nb, ids, cluster, cs, after) && s in Steps(nb, ids, cluster, cs)
    ensures Met(after, s) && Batch(nb, ids, cluster, cs)
  {
  }

  /** The MAC of a job: one record, assigned and primary. */
  lemma MacAgain(nb: NetBox, ids: Ids, cluster: nat, cs: seq<Container>, after: NetBox, j: Job, address: string)
    requires Reached(nb, ids, cluster, cs, after) && j in Jobs(cs) && CanonicalMac(j.n.mac) == Some(address)
    ensures var t, m := Target(nb, ids, VmFor(nb, cluster, j.c), j), MacTarget(nb, ids, address);
      && MacsAt(after, address) == {m}
      && after.macs[m].owner == OfInterface(t)
      && t in after.primaryMac && after.primaryMac[t] == m
  {
    hide Reached, Target, MacTarget, CanonicalMac, NicPasses, Passes, Steps, Jobs, Discovered, FreshIds;
    assert Batch(nb, ids, cluster, cs) by { JustReached(nb, ids, cluster, cs, after); }
    JustPasses(nb, ids, cluster, cs);
    JobPasses(nb, ids, cluster, cs, j);
    var vm := VmFor(nb, cluster, j.c);
    var t, m := Target(nb, ids, vm, j), MacTarget(nb, ids, address);
    MacTargetFacts(nb, ids, address);
    var s := EnsureMac(m, MacsAt(nb, address) == {}, address, t);
    assert s in MacSteps(nb, ids, vm, j);
    JobMacStep(nb, ids, cluster, cs, s, j);
    GoalMet(nb, ids, cluster, cs, after, s);
    forall x | x in MacsAt(after, address)
      ensures x == m
    {
      MacOrigin(nb, ids, cluster, cs, after, x, address);
      OneMac(nb, vm, j, address);
    }
    assert m in MacsAt(after, address);
  }

  lemma JustReached(nb: NetBox, ids: Ids, cluster: nat, cs: seq<Container>, after: NetBox)
    requires Reached(nb, ids, cluster, cs, after)
    ensures Batch(nb, ids, cluster, cs) && DistinctRecords(nb, cluster, cs) && after.vms == nb.vms
  {
  }

  lemma JobMacStep(nb: NetBox, ids: Ids, cluster: nat, cs: seq<Container>, s: Step, j: Job)
    requires Passes(nb, cluster, cs) && j in Jobs(cs) && s in MacSteps(nb, ids, VmFor(nb, cluster, j.c), j)
    ensures s in Steps(nb, ids, cluster, cs)
  {
    hide NicPasses, MacSteps, Steps, NicSteps;
    JobPasses(nb, ids, cluster, cs, j);
    JobStepsMember(nb, ids, VmFor(nb, cluster, j.c), j, s);
    assert FromJob(nb, ids, cluster, cs, s, j);
    JobStepIn(nb, ids, cluster, cs, s, j);
  }

  lemma StepMacTarget(nb: NetBox, ids: Ids, cluster: nat, cs: seq<Container>, s: Step)
    requires Passes(nb, cluster, cs) && s in Steps(nb, ids, cluster, cs) && s.EnsureMac?
    ensures s.id == MacTarget(nb, ids, s.address)
  {
    hide Passes, Steps, NicPasses, NicSteps, MacTarget, Target;
    StepOrigin(nb, ids, cluster, cs, s);
    var j :| FromJob(nb, ids, cluster, cs, s, j);
    JobStepKinds(nb, ids, VmFor(nb, cluster, j.c), j, s);
  }

  lemma OneMac(nb: NetBox, vm: nat, j: Job, address: string)
    requires NicPasses(nb, vm, j.c, j.n) && CanonicalMac(j.n.mac) == Some(address)
    ensures AtMostOne(MacsAt(nb, address))
  {
  }

  lemma JobIpStep(nb: NetBox, ids: Ids, cluster: nat, cs: seq<Container>, j: Job, k: IpKey)
    requires Passes(nb, cluster, cs) && j in Jobs(cs) && k in Keys(j.n)
    ensures IpStep(nb, ids, Target(nb, ids, VmFor(nb, cluster, j.c), j), k) in Steps(nb, ids, cluster, cs)
  {
    hide NicPasses, Steps, IpTarget, Keys, Target, Jobs, NicSteps;
    JobPasses(nb, ids, cluster, cs, j);
    var vm := VmFor(nb, cluster, j.c);
    var s := IpStep(nb, ids, Target(nb, ids, vm, j), k);
    JobStepsMember(nb, ids, vm, j, s);
    assert FromJob(nb, ids, cluster, cs, s, j);
    JobStepIn(nb, ids, cluster, cs, s, j);
  }

  lemma StepIpTarget(nb: NetBox, ids: Ids, cluster: nat, cs: seq<Container>, s: Step)
    requires Passes(nb, cluster, cs) && s in Steps(nb, ids, cluster, cs) && s.EnsureIp?
    ensures s.id == IpTarget(nb, ids, s.key)
  {
    hide Passes, Steps, NicPasses, NicSteps, IpTarget, Target;
    StepOrigin(nb, ids, cluster, cs, s);
    var j :| FromJob(nb, ids, cluster, cs, s, j);
    JobStepKinds(nb, ids, VmFor(nb, cluster, j.c), j, s);
  }

  lemma OneIp(nb: NetBox, vm: nat, j: Job, k: IpKey)
    requires NicPasses(nb, vm, j.c, j.n) && k in Keys(j.n)
    ensures AtMostOne(IpsAt(nb, k))
  {
  }

  lemma IpOrigin(nb: NetBox, ids: Ids, cluster: nat, cs: seq<Container>, after: NetBox, x: nat, k: IpKey)
    requires Reached(nb, ids, cluster, cs, after) && x in IpsAt(after, k)
    ensures x == IpTarget(nb, ids, k) || x in IpsAt(nb, k)
  {
    hide Batch, DistinctRecords, IpTarget, Steps, Reached;
    JustReached(nb, ids, cluster, cs, after);
    JustPasses(nb, ids, cluster, cs);
    if u :| u in Steps(nb, ids, cluster, cs) && u.EnsureIp? && u.id == x {
      GoalMet(nb, ids, cluster, cs, after, u);
      StepIpTarget(nb, ids, cluster, cs, u);
      assert u.key == k;
    } else {
      IpSpared(nb, ids, cluster, cs, after, x);
    }
  }

  /** An address of a job: one record, assigned to its interface. */
  lemma IpAgain(nb: NetBox, ids: Ids, cluster: nat, cs: seq<Container>, after: NetBox, j: Job, k: IpKey)
    requires Reached(nb, ids, cluster, cs, after) && j in Jobs(cs) && k in Keys(j.n)
    ensures var t, i := Target(nb, ids, VmFor(nb, cluster, j.c), j), IpTarget(nb, ids, k);
      && IpsAt(after, k) == {i} && after.ips[i].owner == OfInterface(t)
  {
    hide Reached, Target, IpTarget, Keys, NicPasses, Passes, Steps, Jobs, FreshIds, Batch, DistinctRecords, OneSource,
         InjectiveIdentities, ContainerPasses, FindVm;
    JustReached(nb, ids, cluster, cs, after);
    JustPasses(nb, ids, cluster, cs);
    JobPasses(nb, ids, cluster, cs, j);
    var vm := VmFor(nb, cluster, j.c);
    var t, i := Target(nb, ids, vm, j), IpTarget(nb, ids, k);
    IpTargetFacts(nb, ids, k);
    JobIpStep(nb, ids, cluster, cs, j, k);
    GoalMet(nb, ids, cluster, cs, after, IpStep(nb, ids, t, k));
    forall x | x in IpsAt(after, k)
      ensures x == i
    {
      IpOrigin(nb, ids, cluster, cs, after, x, k);
      OneIp(nb, vm, j, k);
    }
    assert i in IpsAt(after, k);
  }

  lemma NicPassesAgain(nb: NetBox, ids: Ids, cluster: nat, cs: seq<Container>, after: NetBox, j: Job)
    requires Reached(nb, ids, cluster, cs, after) && DistinctKeys(nb, cluster, cs) && j in Jobs(cs)
    ensures NicPasses(after, VmFor(nb, cluster, j.c), j.c, j.n)
  {
    hide FindInterface, Reached, Target, MacTarget, IpTarget, CanonicalMac, Keys, DesiredFields, Jobs, DistinctKeys,
         MacsAt;
    var vm := VmFor(nb, cluster, j.c);
    FoundAgain(nb, ids, cluster, cs, after, j);
    JobRow(nb, ids, cluster, cs, after, j);
    DesiredFacts(nb, vm, j);
    if CanonicalMac(j.n.mac).Some? {
      MacAgain(nb, ids, cluster, cs, after, j, CanonicalMac(j.n.mac).value);
    }
    forall k | k in Keys(j.n)
      ensures AtMostOne(IpsAt(after, k))
      ensures forall i :: i in IpsAt(after, k) ==> Allowed(after.ips[i].owner, FindInterface(after, vm, j.c, j.n))
    {
      IpAgain(nb, ids, cluster, cs, after, j, k);
    }
  }

  lemma PassesAgain(nb: NetBox, ids: Ids, cluster: nat, cs: seq<Container>, after: NetBox)
    requires Reached(nb, ids, cluster, cs, after)
    requires DistinctKeys(nb, cluster, cs) && DistinctNames(nb, cluster, cs)
    ensures Passes(after, cluster, cs)
  {
    hide Reached, DistinctKeys, DistinctNames, NicPasses, FindInterface, Display, Fold, Target, Rows, Discovered,
         DiscoveredIps, Jobs, FindVm, DistinctRecords, InjectiveIdentities, FreshIds;
    JustReached(nb, ids, cluster, cs, after);
    JustPasses(nb, ids, cluster, cs);
    forall c | c in cs
      ensures ContainerPasses(after, cluster, c)
    {
      SameVm(nb, after, cluster, c);
      var vm := VmFor(nb, cluster, c);
      assert ContainerPasses(nb, cluster, c);
      forall n | n in c.nics
        ensures NicPasses(after, vm, c, n)
        ensures FindInterface(after, vm, c, n) == At(Target(nb, ids, vm, Job(c, n)))
      {
        assert Job(c, n) in Jobs(cs);
        NicPassesAgain(nb, ids, cluster, cs, after, Job(c, n));
        FoundAgain(nb, ids, cluster, cs, after, Job(c, n));
      }
      forall n, r | n in c.nics && r in Rows(after, vm) && r in after.interfaces
                    && Fold(after.interfaces[r].name) == Fold(Display(c, n))
        ensures FindInterface(after, vm, c, n) == At(r)
      {
        NamesAgain(nb, ids, cluster, cs, after, Job(c, n), r);
      }
      RowsAreInterfaces(after, vm);
    }
  }

  lemma RowsAreInterfaces(nb: NetBox, vm: nat)
    ensures forall r :: r in Rows(nb, vm) ==> r in nb.interfaces
  {
  }

  lemma {:induction false} QuietLog(nb: NetBox, steps: seq<Step>)
    requires forall s :: s in steps ==> Perform(nb, s) == []
    ensures Log(nb, steps) == [] && Run(nb, steps) == nb
  {
    hide Perform;
    if steps != [] {
      var init, last := steps[..|steps| - 1], steps[|steps| - 1];
      QuietLog(nb, init);
      assert Perform(nb, last) == [];
    }
  }

  lemma SameCandidate(nb: NetBox, after: NetBox, vm: nat, c: Container)
    requires after.vms == nb.vms
    ensures Candidate(after, vm, c) == Candidate(nb, vm, c)
    ensures Candidate(nb, vm, c).Some? ==> exists n :: n in c.nics && Candidate(nb, vm, c).value in Keys(n)
  {
  }

  /** In the reached state no step of a second apply has anything to write. */
  lemma InterfaceStepQuiet(nb: NetBox, ids: Ids, ids2: Ids, cluster: nat, cs: seq<Container>, after: NetBox, j: Job)
    requires Reached(nb, ids, cluster, cs, after) && DistinctKeys(nb, cluster, cs) && j in Jobs(cs)
    requires NicPasses(after, VmFor(nb, cluster, j.c), j.c, j.n)
    ensures Perform(after, InterfaceStep(after, ids2, VmFor(nb, cluster, j.c), j)) == []
  {
    hide FindInterface, Reached, DistinctKeys, Jobs, NicPasses, Display, DesiredFields;
    var vm := VmFor(nb, cluster, j.c);
    FoundAgain(nb, ids, cluster, cs, after, j);
    JobRow(nb, ids, cluster, cs, after, j);
    DesiredFacts(nb, vm, j);
  }

  lemma JobStepQuiet(nb: NetBox, ids: Ids, ids2: Ids, cluster: nat, cs: seq<Container>, after: NetBox, j: Job, s: Step)
    requires Reached(nb, ids, cluster, cs, after) && DistinctKeys(nb, cluster, cs) && j in Jobs(cs)
    requires NicPasses(after, VmFor(nb, cluster, j.c), j.c, j.n)
    requires s in NicSteps(after, ids2, VmFor(nb, cluster, j.c), j)
    ensures Perform(after, s) == []
  {
    hide FindInterface, Reached, DistinctKeys, Jobs, NicPasses, CanonicalMac, Keys, NicSteps, InterfaceStep;
    var vm := VmFor(nb, cluster, j.c);
    JobStepKinds(after, ids2, vm, j, s);
    FoundAgain(nb, ids, cluster, cs, after, j);
    TargetFacts(after, ids2, vm, j);
    if s.EnsureInterface? {
      InterfaceStepQuiet(nb, ids, ids2, cluster, cs, after, j);
    } else if s.EnsureMac? {
      MacAgain(nb, ids, cluster, cs, after, j, s.address);
    } else {
      IpAgain(nb, ids, cluster, cs, after, j, s.key);
    }
  }

  lemma PrimaryStepQuiet(nb: NetBox, ids: Ids, ids2: Ids, cluster: nat, cs: seq<Container>, after: NetBox,
                         c: Container, s: Step)
    requires Reached(nb, ids, cluster, cs, after) && c in cs
    requires s in PrimarySteps(after, ids2, VmFor(nb, cluster, c), c)
    ensures Perform(after, s) == []
  {
    hide Reached, Candidate, Keys, Jobs, IpsAt, DistinctRecords, InjectiveIdentities, FreshIds, Passes, Steps, Target;
    JustReached(nb, ids, cluster, cs, after);
    JustPasses(nb, ids, cluster, cs);
    var vm := VmFor(nb, cluster, c);
    SameCandidate(nb, after, vm, c);
    PrimaryStepKind(after, ids2, vm, c, s);
    var k := Candidate(nb, vm, c).value;
    var n :| n in c.nics && k in Keys(n);
    IpAgain(nb, ids, cluster, cs, after, Job(c, n), k);
    assert s == EnsurePrimary(vm, IpTarget(nb, ids, k));
    assert FromContainer(nb, ids, cluster, cs, s, c);
    ContainerStepIn(nb, ids, cluster, cs, s, c);
    GoalMet(nb, ids, cluster, cs, after, s);
  }

  lemma SecondStepsQuiet(nb: NetBox, ids: Ids, ids2: Ids, cluster: nat, cs: seq<Container>, after: NetBox, s: Step)
    requires Reached(nb, ids, cluster, cs, after) && DistinctKeys(nb, cluster, cs)
    requires Passes(after, cluster, cs) && s in Steps(after, ids2, cluster, cs)
    ensures Perform(after, s) == []
  {
    hide Reached, DistinctKeys, Passes, Steps, Perform, NicPasses, NicSteps, PrimarySteps, FindVm, Jobs,
         DistinctRecords;
    JustReached(nb, ids, cluster, cs, after);
    StepOrigin(after, ids2, cluster, cs, s);
    if s.EnsurePrimary? {
      var c :| FromContainer(after, ids2, cluster, cs, s, c);
      SameVm(nb, after, cluster, c);
      PrimaryStepQuiet(nb, ids, ids2, cluster, cs, after, c, s);
    } else {
      var j :| FromJob(after, ids2, cluster, cs, s, j);
      SameVm(nb, after, cluster, j.c);
      JobStepQuiet(nb, ids, ids2, cluster, cs, after, j, s);
    }
  }

  /** The second apply of a separate batch passes and writes nothing, whatever ids NetBox assigns. */
  lemma SeparateBatchConverges(nb: NetBox, ids: Ids, ids2: Ids, cluster: nat, cs: seq<Container>)
    requires Batch(nb, ids, cluster, cs) && Separate(nb, cluster, cs)
    ensures var after := Applied(nb, ids, cluster, cs);
      Passes(after, cluster, cs) && Log(after, Steps(after, ids2, cluster, cs)) == []
  {
    hide DistinctKeys, ContainerPasses, Steps, Perform, DistinctNames, Log, DistinctPrimaries, FreshIds,
         InjectiveIdentities, DistinctRecords;
    var after := Applied(nb, ids, cluster, cs);
    AppliedMeets(nb, ids, cluster, cs);
    assert Reached(nb, ids, cluster, cs, after);
    PassesAgain(nb, ids, cluster, cs, after);
    forall s | s in Steps(after, ids2, cluster, cs)
      ensures Perform(after, s) == []
    {
      SecondStepsQuiet(nb, ids, ids2, cluster, cs, after, s);
    }
    QuietLog(after, Steps(after, ids2, cluster, cs));
  }
}
