/**
 What NetBox holds after an accepted LXC network batch, stated on the discovered interfaces themselves, and
 that it holds nothing else new.
 */
module LxcApplied {
  import opened Wrappers
  import opened Texts
  import opened SourceIdentities
  import opened Guests
  import opened LxcNetworks
  import opened LxcConvergence

  /** The custom fields describe the discovered interface. */
  predicate Describes(c: Container, n: Nic, fields: CustomFields) {
    var id := NicIdentity(c, n);
    && fields.bridge == n.bridge && fields.vlan == n.vlan
    && fields.names.Names? && NameKey(id) in fields.names.names && fields.names.names[NameKey(id)] == n.name
    && (n.observations.Some? ==>
          && fields.observations.Observed? && c.inst in fields.observations.entries
          && fields.observations.entries[c.inst] == n.observations.value)
    && fields.identities.Entries? && V2(id) in fields.identities.list
    && forall e :: e in fields.identities.list && SameNamespace(e, id) ==> e == V2(id)
  }

  /** The interface is there: on its VM, under its display name, enabled and described. */
  predicate RowShown(after: NetBox, vm: nat, c: Container, n: Nic, r: nat) {
    && r in after.interfaces
    && after.interfaces[r].vm == Some(vm) && after.interfaces[r].name == DisplayName(c.nics, n)
    && after.interfaces[r].enabled && Describes(c, n, after.interfaces[r].fields)
  }

  /** Its discovered MAC is recorded on it, as its primary one. */
  ghost predicate MacShown(after: NetBox, n: Nic, r: nat) {
    var text := if n.mac.Some? then Upper(Strip(n.mac.value)) else "";
    text != "" ==>
      exists m :: m in after.macs && CanonicalMac(after.macs[m].address) == Some(text)
                  && after.macs[m].owner == OfInterface(r) && r in after.primaryMac && after.primaryMac[r] == m
  }

  /** An address that is not reserved is recorded on it, in its VRF. */
  ghost predicate IpShown(after: NetBox, n: Nic, r: nat, t: IpText) {
    t.Spelled? && !Reserved(t.iface) ==>
      exists i :: i in after.ips && after.ips[i].address.Spelled? && after.ips[i].address.iface == t.iface
                  && after.ips[i].vrf == n.vrf && after.ips[i].owner == OfInterface(r)
  }

  ghost predicate NicShown(after: NetBox, vm: nat, c: Container, n: Nic, r: nat) {
    RowShown(after, vm, c, n, r) && MacShown(after, n, r) && forall t :: t in n.ips ==> IpShown(after, n, r, t)
  }

  // ----------------------------------------------------------- every interface

  lemma DesiredDescribes(c: Container, n: Nic, cf: CustomFields)
    requires DesiredFields(c, n, cf).Some?
    ensures Describes(c, n, DesiredFields(c, n, cf).value)
    ensures n.observations.None? ==> DesiredFields(c, n, cf).value.observations == cf.observations
    ensures DesiredFields(c, n, cf).value.other == cf.other
  {
    DesiredFieldsHoldOnly(c, n, cf);
  }

  lemma RowIsShown(nb: NetBox, ids: Ids, cluster: nat, cs: seq<Container>, j: Job)
    requires Batch(nb, ids, cluster, cs) && DistinctRecords(nb, cluster, cs) && j in Jobs(cs)
    ensures var vm := VmFor(nb, cluster, j.c);
            RowShown(Applied(nb, ids, cluster, cs), vm, j.c, j.n, Target(nb, ids, vm, j))
  {
    hide Steps, NicPasses, Jobs, FreshIds, InjectiveIdentities, OneSource, DistinctRecords, Applied, FindInterface,
         DesiredFields, Describes;
    JobPasses(nb, ids, cluster, cs, j);
    var vm := VmFor(nb, cluster, j.c);
    var s := InterfaceStep(nb, ids, vm, j);
    JobStepsMember(nb, ids, vm, j, s);
    assert FromJob(nb, ids, cluster, cs, s, j);
    JobStepIn(nb, ids, cluster, cs, s, j);
    AppliedMeetsStep(nb, ids, cluster, cs, s);
    StepDescribes(nb, ids, vm, j);
  }

  lemma StepDescribes(nb: NetBox, ids: Ids, vm: nat, j: Job)
    requires NicPasses(nb, vm, j.c, j.n)
    ensures Describes(j.c, j.n, InterfaceStep(nb, ids, vm, j).fields)
  {
    hide DesiredFields, Describes, FindInterface, MacPasses, IpsPass;
    DesiredDescribes(j.c, j.n, FieldsOf(nb, FindInterface(nb, vm, j.c, j.n)));
  }

  lemma MacIsShown(nb: NetBox, ids: Ids, cluster: nat, cs: seq<Container>, j: Job)
    requires Batch(nb, ids, cluster, cs) && DistinctRecords(nb, cluster, cs) && j in Jobs(cs)
    ensures MacShown(Applied(nb, ids, cluster, cs), j.n, Target(nb, ids, VmFor(nb, cluster, j.c), j))
  {
    hide Steps, NicPasses, Jobs, FreshIds, InjectiveIdentities, OneSource, DistinctRecords, Applied, FindInterface,
         InterfaceStep, Target, MacTarget, MacsAt, Upper, Strip, VmFor;
    var vm := VmFor(nb, cluster, j.c);
    if CanonicalMac(j.n.mac).Some? {
      var a := CanonicalMac(j.n.mac).value;
      JobPasses(nb, ids, cluster, cs, j);
      var s := EnsureMac(MacTarget(nb, ids, a), MacsAt(nb, a) == {}, a, Target(nb, ids, vm, j));
      assert s in MacSteps(nb, ids, vm, j);
      JobStepsMember(nb, ids, vm, j, s);
      assert FromJob(nb, ids, cluster, cs, s, j);
      JobStepIn(nb, ids, cluster, cs, s, j);
      AppliedMeetsStep(nb, ids, cluster, cs, s);
    }
  }

  lemma {:induction false} UsableHasKey(n: Nic, ips: seq<IpText>, t: IpText)
    requires t in ips && t.Spelled? && !Reserved(t.iface)
    ensures IpKey(t.iface, n.vrf) in IpKeys(n, ips)
  {
    hide Reserved;
    if ips[0] != t {
      UsableHasKey(n, ips[1..], t);
    }
  }

  lemma IpIsShown(nb: NetBox, ids: Ids, cluster: nat, cs: seq<Container>, j: Job, t: IpText)
    requires Batch(nb, ids, cluster, cs) && DistinctRecords(nb, cluster, cs) && j in Jobs(cs) && t in j.n.ips
    ensures IpShown(Applied(nb, ids, cluster, cs), j.n, Target(nb, ids, VmFor(nb, cluster, j.c), j), t)
  {
    hide Steps, NicPasses, Jobs, FreshIds, InjectiveIdentities, OneSource, DistinctRecords, Applied, FindInterface,
         InterfaceStep, Target, IpTarget, IpsAt, Reserved, VmFor, MacSteps, Keys;
    if t.Spelled? && !Reserved(t.iface) {
      var vm := VmFor(nb, cluster, j.c);
      JobPasses(nb, ids, cluster, cs, j);
      var key := IpKey(t.iface, j.n.vrf);
      KeyIsKnown(j.n, t);
      var s := IpStep(nb, ids, Target(nb, ids, vm, j), key);
      JobStepsMember(nb, ids, vm, j, s);
      assert FromJob(nb, ids, cluster, cs, s, j);
      JobStepIn(nb, ids, cluster, cs, s, j);
      AppliedMeetsStep(nb, ids, cluster, cs, s);
    }
  }

  lemma KeyIsKnown(n: Nic, t: IpText)
    requires t in n.ips && t.Spelled? && !Reserved(t.iface)
    ensures IpKey(t.iface, n.vrf) in Keys(n)
  {
    UsableHasKey(n, n.ips, t);
  }

  /**
   After an accepted batch whose interfaces use distinct records, every discovered interface is there: its row on
   its VM under its display name, enabled, with its own bridge, VLAN, name, observations and identity; its MAC
   recorded on that row as the primary one; and each of its addresses that is not reserved recorded on that row
   in its VRF. The row is the one the preflight matched, or a new one.
   */
  lemma EveryInterfaceIsShown(nb: NetBox, ids: Ids, cluster: nat, cs: seq<Container>, c: Container, n: Nic)
    requires Batch(nb, ids, cluster, cs) && DistinctRecords(nb, cluster, cs) && c in cs && n in c.nics
    ensures FindVm(nb, cluster, c).Some?
    ensures var vm := FindVm(nb, cluster, c).value;
            var found := FindInterface(nb, vm, c, n);
            exists r :: NicShown(Applied(nb, ids, cluster, cs), vm, c, n, r)
                        && (found.At? ==> r == found.id) && (found.Absent? ==> r !in nb.interfaces)
  {
    hide Steps, NicPasses, FreshIds, InjectiveIdentities, OneSource, DistinctRecords, Applied, FindInterface,
         RowShown, MacShown, IpShown, FindVm, Jobs;
    var j := Job(c, n);
    assert j in Jobs(cs);
    JobPasses(nb, ids, cluster, cs, j);
    var vm := VmFor(nb, cluster, c);
    RowIsShown(nb, ids, cluster, cs, j);
    MacIsShown(nb, ids, cluster, cs, j);
    forall t | t in n.ips
      ensures IpShown(Applied(nb, ids, cluster, cs), n, Target(nb, ids, vm, j), t)
    {
      IpIsShown(nb, ids, cluster, cs, j, t);
    }
    TargetIsNew(nb, ids, vm, j);
    assert NicShown(Applied(nb, ids, cluster, cs), vm, c, n, Target(nb, ids, vm, j));
  }

  lemma TargetIsNew(nb: NetBox, ids: Ids, vm: nat, j: Job)
    requires FreshIds(nb, ids)
    ensures var found := FindInterface(nb, vm, j.c, j.n);
            && (found.At? ==> Target(nb, ids, vm, j) == found.id)
            && (found.Absent? ==> Target(nb, ids, vm, j) !in nb.interfaces)
  {
    hide FindInterface;
  }

  // -------------------------------------------------------------- primary address

  /** The only IPv4 address of the whole container, with its VRF. */
  ghost predicate SoleIpv4(c: Container, k: IpKey) {
    && (exists n, t :: n in c.nics && t in n.ips && Offers(n, t, k))
    && forall n, t, q :: n in c.nics && t in n.ips && Offers(n, t, q) ==> q == k
  }

  predicate Offers(n: Nic, t: IpText, k: IpKey) {
    t.Spelled? && !Reserved(t.iface) && t.iface.v4 && k == IpKey(t.iface, n.vrf)
  }

  lemma {:induction false} KeysAreOffered(n: Nic, ips: seq<IpText>, k: IpKey)
    ensures k in IpKeys(n, ips) && k.iface.v4 <==> exists t :: t in ips && Offers(n, t, k)
  {
    hide Reserved;
    if ips != [] {
      KeysAreOffered(n, ips[1..], k);
      assert ips[0] in ips && forall t :: t in ips <==> t == ips[0] || t in ips[1..];
      assert k in IpKeys(n, ips) <==> (Usable(ips[0]) && k == IpKey(ips[0].iface, n.vrf)) || k in IpKeys(n, ips[1..]);
      if t :| t in ips[1..] && Offers(n, t, k) {
        assert t in ips;
      }
    }
  }

  lemma Ipv4IsOffered(c: Container, k: IpKey)
    ensures k in Ipv4(c.nics) <==> exists n, t :: n in c.nics && t in n.ips && Offers(n, t, k)
  {
    hide Offers;
    forall n | n in c.nics
      ensures k in Keys(n) && k.iface.v4 <==> exists t :: t in n.ips && Offers(n, t, k)
    {
      KeysAreOffered(n, n.ips, k);
    }
  }

  /** A container's only IPv4 address becomes the primary address of its VM, unless a provider owns that link. */
  lemma PrimaryIsShown(nb: NetBox, ids: Ids, cluster: nat, cs: seq<Container>, c: Container, k: IpKey)
    requires Batch(nb, ids, cluster, cs) && DistinctRecords(nb, cluster, cs) && DistinctPrimaries(nb, cluster, cs)
    requires c in cs && SoleIpv4(c, k) && FindVm(nb, cluster, c).Some?
    requires FindVm(nb, cluster, c).value in nb.vms && !nb.vms[FindVm(nb, cluster, c).value].primaryOwned
    ensures var after, vm := Applied(nb, ids, cluster, cs), FindVm(nb, cluster, c).value;
            && vm in after.primaryIp && after.primaryIp[vm] in after.ips
            && var ip := after.ips[after.primaryIp[vm]];
               ip.address.Spelled? && ip.address.iface == k.iface && ip.vrf == k.vrf
  {
    hide Steps, NicPasses, FreshIds, InjectiveIdentities, OneSource, DistinctRecords, DistinctPrimaries, Applied,
         FindInterface, FindVm, Jobs, Offers, ContainerPasses, IpTarget, IpsAt, InterfaceStep, Target, Keys;
    var vm := VmFor(nb, cluster, c);
    SoleCandidate(nb, vm, c, k);
    var s := EnsurePrimary(vm, IpTarget(nb, ids, k));
    assert s in PrimarySteps(nb, ids, vm, c);
    assert FromContainer(nb, ids, cluster, cs, s, c);
    ContainerStepIn(nb, ids, cluster, cs, s, c);
    AppliedMeetsStep(nb, ids, cluster, cs, s);
    Ipv4IsOffered(c, k);
    var n :| n in c.nics && k in Keys(n);
    var j := Job(c, n);
    assert j in Jobs(cs);
    JobPasses(nb, ids, cluster, cs, j);
    var i := IpStep(nb, ids, Target(nb, ids, vm, j), k);
    JobStepsMember(nb, ids, vm, j, i);
    assert FromJob(nb, ids, cluster, cs, i, j);
    JobStepIn(nb, ids, cluster, cs, i, j);
    AppliedMeetsStep(nb, ids, cluster, cs, i);
  }

  lemma SoleCandidate(nb: NetBox, vm: nat, c: Container, k: IpKey)
    requires SoleIpv4(c, k) && vm in nb.vms && !nb.vms[vm].primaryOwned
    ensures Candidate(nb, vm, c) == Some(k)
  {
    hide Offers, Keys;
    forall q
      ensures q in Ipv4(c.nics) <==> q == k
    {
      Ipv4IsOffered(c, q);
      Ipv4IsOffered(c, k);
    }
    assert Ipv4(c.nics) == {k};
  }

  // ------------------------------------------------------------------ nothing else

  /** A record of the batch: the row of some discovered interface. */
  ghost predicate BatchRow(nb: NetBox, ids: Ids, cluster: nat, cs: seq<Container>, r: nat) {
    exists j :: j in Jobs(cs) && r == Target(nb, ids, VmFor(nb, cluster, j.c), j)
  }

  ghost predicate BatchMac(nb: NetBox, ids: Ids, cs: seq<Container>, m: nat) {
    exists j :: j in Jobs(cs) && CanonicalMac(j.n.mac).Some? && m == MacTarget(nb, ids, CanonicalMac(j.n.mac).value)
  }

  ghost predicate BatchIp(nb: NetBox, ids: Ids, cs: seq<Container>, i: nat) {
    exists j, k :: j in Jobs(cs) && k in Keys(j.n) && i == IpTarget(nb, ids, k)
  }

  /** A scoped address of an interface: parsed, not reserved, in the VRF of the interface. */
  lemma {:induction false} KeysAreUsable(n: Nic, ips: seq<IpText>, k: IpKey)
    requires k in IpKeys(n, ips)
    ensures exists t :: t in ips && t.Spelled? && !Reserved(t.iface) && k == IpKey(t.iface, n.vrf)
  {
    hide Reserved;
    if !(Usable(ips[0]) && k == IpKey(ips[0].iface, n.vrf)) {
      KeysAreUsable(n, ips[1..], k);
    }
  }

  /**
   Nothing else is new or changed: machines are as they were, and a row, MAC or address that no discovered
   interface of the batch stands for is as it was.
   */
  lemma NothingElseChanges(nb: NetBox, ids: Ids, cluster: nat, cs: seq<Container>)
    requires Batch(nb, ids, cluster, cs)
    ensures var after := Applied(nb, ids, cluster, cs);
            && after.vms == nb.vms
            && (forall r :: !BatchRow(nb, ids, cluster, cs, r) ==> SparedInterface(nb, after, r))
            && (forall m :: !BatchMac(nb, ids, cs, m) ==> SparedMac(nb, after, m))
            && (forall i :: !BatchIp(nb, ids, cs, i) ==> SparedIp(nb, after, i))
  {
    hide Steps, NicPasses, FreshIds, InjectiveIdentities, OneSource, FindInterface, FindVm, Jobs, ContainerPasses,
         Run, Target, MacTarget, IpTarget, Keys, CanonicalMac, VmFor, SparedInterface, SparedMac, SparedIp, Passes;
    JustPassed(nb, ids, cluster, cs);
    var steps := Steps(nb, ids, cluster, cs);
    RunSpares(nb, steps);
    forall s | s in steps
      ensures s.EnsureInterface? ==> BatchRow(nb, ids, cluster, cs, s.id)
      ensures s.EnsureMac? ==> BatchMac(nb, ids, cs, s.id)
      ensures s.EnsureIp? ==> BatchIp(nb, ids, cs, s.id)
    {
      StepOrigin(nb, ids, cluster, cs, s);
      if !s.EnsurePrimary? {
        var j :| FromJob(nb, ids, cluster, cs, s, j);
        JobStepKinds(nb, ids, VmFor(nb, cluster, j.c), j, s);
      }
    }
  }

  predicate SamePrimaryIp(nb: NetBox, after: NetBox, v: nat) {
    (v in after.primaryIp <==> v in nb.primaryIp) && (v in nb.primaryIp ==> after.primaryIp[v] == nb.primaryIp[v])
  }

  predicate SamePrimaryMac(nb: NetBox, after: NetBox, r: nat) {
    (r in after.primaryMac <==> r in nb.primaryMac) && (r in nb.primaryMac ==> after.primaryMac[r] == nb.primaryMac[r])
  }

  lemma {:induction false} RunSparesPrimaries(nb: NetBox, steps: seq<Step>)
    ensures forall v :: (forall s :: s in steps && s.EnsurePrimary? ==> s.vm != v) ==>
                        SamePrimaryIp(nb, Run(nb, steps), v)
    ensures forall r :: (forall s :: s in steps && s.EnsureMac? ==> s.interface != r) ==>
                        SamePrimaryMac(nb, Run(nb, steps), r)
  {
    if steps != [] {
      var init, last := steps[..|steps| - 1], steps[|steps| - 1];
      RunSparesPrimaries(nb, init);
      assert forall s :: s in steps <==> s in init || s == last;
      StepSparesPrimaries(Run(nb, init), last);
      forall v | forall s :: s in steps && s.EnsurePrimary? ==> s.vm != v
        ensures SamePrimaryIp(nb, Run(nb, steps), v)
      {
        assert SamePrimaryIp(nb, Run(nb, init), v) && SamePrimaryIp(Run(nb, init), After(Run(nb, init), last), v);
      }
      forall r | forall s :: s in steps && s.EnsureMac? ==> s.interface != r
        ensures SamePrimaryMac(nb, Run(nb, steps), r)
      {
        assert SamePrimaryMac(nb, Run(nb, init), r) && SamePrimaryMac(Run(nb, init), After(Run(nb, init), last), r);
      }
    }
  }

  lemma StepSparesPrimaries(nb: NetBox, s: Step)
    ensures forall v :: !(s.EnsurePrimary? && s.vm == v) ==> SamePrimaryIp(nb, After(nb, s), v)
    ensures forall r :: !(s.EnsureMac? && s.interface == r) ==> SamePrimaryMac(nb, After(nb, s), r)
  {
    hide After, Changed;
    AfterIsSettled(nb, s);
  }

  /**
   Primary links change only where the batch gives a reason: a VM of the batch whose link no provider owns and
   whose container offers one IPv4 address, and a row of a discovered interface that has a MAC.
   */
  lemma PrimariesKept(nb: NetBox, ids: Ids, cluster: nat, cs: seq<Container>)
    requires Batch(nb, ids, cluster, cs)
    ensures var after := Applied(nb, ids, cluster, cs);
            && (forall v :: !SamePrimaryIp(nb, after, v) ==>
                  exists c, k :: c in cs && FindVm(nb, cluster, c) == Some(v) && SoleIpv4(c, k)
                                 && !(v in nb.vms && nb.vms[v].primaryOwned))
            && (forall r :: !SamePrimaryMac(nb, after, r) ==>
                  exists j :: j in Jobs(cs) && CanonicalMac(j.n.mac).Some?
                              && r == Target(nb, ids, VmFor(nb, cluster, j.c), j))
  {
    hide Steps, NicPasses, FreshIds, InjectiveIdentities, OneSource, FindInterface, FindVm, Jobs, ContainerPasses,
         Run, Target, MacTarget, IpTarget, Keys, CanonicalMac, SamePrimaryIp, SamePrimaryMac, Passes, SoleIpv4,
         Candidate;
    JustPassed(nb, ids, cluster, cs);
    var steps := Steps(nb, ids, cluster, cs);
    RunSparesPrimaries(nb, steps);
    forall s | s in steps
      ensures s.EnsurePrimary? ==>
                exists c, k :: c in cs && FindVm(nb, cluster, c) == Some(s.vm) && SoleIpv4(c, k)
                               && !(s.vm in nb.vms && nb.vms[s.vm].primaryOwned)
      ensures s.EnsureMac? ==>
                exists j :: j in Jobs(cs) && CanonicalMac(j.n.mac).Some?
                            && s.interface == Target(nb, ids, VmFor(nb, cluster, j.c), j)
    {
      StepOrigin(nb, ids, cluster, cs, s);
      if s.EnsurePrimary? {
        var c :| FromContainer(nb, ids, cluster, cs, s, c);
        HasItsVm(nb, cluster, cs, c);
        PrimaryReason(nb, cluster, c);
      } else {
        var j :| FromJob(nb, ids, cluster, cs, s, j);
        JobStepKinds(nb, ids, VmFor(nb, cluster, j.c), j, s);
      }
    }
  }

  lemma HasItsVm(nb: NetBox, cluster: nat, cs: seq<Container>, c: Container)
    requires Passes(nb, cluster, cs) && c in cs
    ensures FindVm(nb, cluster, c).Some?
  {
  }

  lemma PrimaryReason(nb: NetBox, cluster: nat, c: Container)
    requires FindVm(nb, cluster, c).Some? && Candidate(nb, FindVm(nb, cluster, c).value, c).Some?
    ensures exists k :: SoleIpv4(c, k)
    ensures var v := FindVm(nb, cluster, c).value; !(v in nb.vms && nb.vms[v].primaryOwned)
  {
    hide FindVm, Offers, Keys, Ipv4;
    var k :| Ipv4(c.nics) == {k};
    forall q
      ensures q in Ipv4(c.nics) <==> exists n, t :: n in c.nics && t in n.ips && Offers(n, t, q)
    {
      Ipv4IsOffered(c, q);
    }
    assert k in Ipv4(c.nics);
    assert SoleIpv4(c, k);
  }

  lemma JustPassed(nb: NetBox, ids: Ids, cluster: nat, cs: seq<Container>)
    requires Batch(nb, ids, cluster, cs)
    ensures Passes(nb, cluster, cs)
  {
  }

  // -------------------------------------------------------------- what is matched

  /** How well a stored identity field fits a container: its v2 identity, or v1 of the legacy owner. */
  function VmFit(field: IdentityField, c: Container): nat {
    if !field.Entries? then 0
    else if V2(SourceIdentity(c.source, c.inst, "lxc", c.vmid)) in field.list then 2
    else if c.legacyOwner
            && exists e :: e in field.list && e.Legacy? && e.source == c.source && e.sourceId == c.legacyId
    then 1 else 0
  }

  /** A VM is found exactly when it fits best, alone, lies in the cluster, and every VM's metadata can be read. */
  lemma VmFoundIff(nb: NetBox, cluster: nat, c: Container, v: nat)
    ensures FindVm(nb, cluster, c) == Some(v) <==>
            && VmRanked(nb, c)
            && v in nb.vms && nb.vms[v].cluster == Some(cluster) && VmFit(nb.vms[v].identities, c) > 0
            && forall q :: q in nb.vms && q != v ==> VmFit(nb.vms[q].identities, c) < VmFit(nb.vms[v].identities, c)
  {
    hide VmFit, MatchRank;
    if VmRanked(nb, c) {
      forall q | q in nb.vms
        ensures VmRank(nb, q, c) == VmFit(nb.vms[q].identities, c)
      {
        VmRankIs(nb, c, q);
      }
      if v in nb.vms && VmFit(nb.vms[v].identities, c) > 0
         && forall q :: q in nb.vms && q != v ==> VmFit(nb.vms[q].identities, c) < VmFit(nb.vms[v].identities, c) {
        assert VmMatches(nb, c) == {v};
      }
      if FindVm(nb, cluster, c) == Some(v) {
        assert v in VmMatches(nb, c);
        forall q | q in nb.vms && q != v
          ensures VmRank(nb, q, c) < VmRank(nb, v, c)
        {
          assert q !in VmMatches(nb, c);
        }
      }
    }
  }

  lemma VmRankIs(nb: NetBox, c: Container, v: nat)
    requires VmRanked(nb, c) && v in nb.vms
    ensures VmRank(nb, v, c) == VmFit(nb.vms[v].identities, c)
  {
    RankMeans(nb.vms[v].identities, LxcIdentity(c), c.legacyId, c.legacyOwner);
  }

  /** How well a stored identity field fits an interface: own identity, v1 of the legacy owner, or the former key. */
  function NicFit(field: IdentityField, c: Container, n: Nic): nat {
    var key := if n.externalId.Some? && n.externalId.value != "" then n.externalId.value else n.name;
    if !field.Entries? then 0
    else if V2(SourceIdentity(c.source, c.inst, "lxc-nic", c.vmid + ":" + key)) in field.list then 2
    else if c.legacyOwner
            && exists e :: e in field.list && e.Legacy? && e.source == c.source
                           && e.sourceId == c.legacyId + ":" + n.name
    then 1
    else if c.source == "proxmox"
            && V2(SourceIdentity(c.source, c.inst, "lxc-nic", c.vmid + ":" + n.name)) in field.list
    then 2 else 0
  }

  /** The row of the VM that fits the interface best, alone. */
  ghost predicate BestRow(nb: NetBox, vm: nat, c: Container, n: Nic, r: nat) {
    && r in nb.interfaces && nb.interfaces[r].vm == Some(vm) && NicFit(nb.interfaces[r].fields.identities, c, n) > 0
    && forall q :: q in nb.interfaces && q != r && nb.interfaces[q].vm == Some(vm) ==>
         NicFit(nb.interfaces[q].fields.identities, c, n) < NicFit(nb.interfaces[r].fields.identities, c, n)
  }

  ghost predicate NoRow(nb: NetBox, vm: nat, c: Container, n: Nic) {
    forall q :: q in nb.interfaces && nb.interfaces[q].vm == Some(vm) ==>
      NicFit(nb.interfaces[q].fields.identities, c, n) == 0
  }

  /** A row of the VM already has the discovered name or the display name, ignoring case. */
  ghost predicate NameInUse(nb: NetBox, vm: nat, c: Container, n: Nic) {
    exists q :: q in nb.interfaces && nb.interfaces[q].vm == Some(vm)
                && (Fold(nb.interfaces[q].name) == Fold(n.name)
                    || Fold(nb.interfaces[q].name) == Fold(DisplayName(c.nics, n)))
  }

  /**
   The interface is matched with the row that fits best, alone; it is new exactly when no row fits and its names
   are free; every other case is refused.
   */
  lemma InterfaceFoundIff(nb: NetBox, vm: nat, c: Container, n: Nic)
    requires Ranked(nb, vm, c, n)
    ensures forall r: nat :: FindInterface(nb, vm, c, n) == At(r) <==> BestRow(nb, vm, c, n, r)
    ensures FindInterface(nb, vm, c, n) == Absent <==> NoRow(nb, vm, c, n) && !NameInUse(nb, vm, c, n)
  {
    hide NicFit, NicRank, Fold, DisplayName;
    forall q | q in Rows(nb, vm)
      ensures Rank(nb, q, c, n) == NicFit(nb.interfaces[q].fields.identities, c, n)
    {
      RowRankIs(nb, vm, c, n, q);
    }
    var best := Best(nb, vm, c, n);
    forall r: nat
      ensures FindInterface(nb, vm, c, n) == At(r) <==> BestRow(nb, vm, c, n, r)
    {
      if BestRow(nb, vm, c, n, r) {
        assert r in Rows(nb, vm);
        assert best == {r};
      }
      if FindInterface(nb, vm, c, n) == At(r) {
        assert r in best;
        forall q | q in nb.interfaces && q != r && nb.interfaces[q].vm == Some(vm)
          ensures NicFit(nb.interfaces[q].fields.identities, c, n) < NicFit(nb.interfaces[r].fields.identities, c, n)
        {
          assert q in Rows(nb, vm) && q !in best;
        }
      }
    }
    if best == {} {
      NoBestIsNoRow(nb, vm, c, n);
    } else {
      var r :| r in best;
      assert r in Rows(nb, vm) && NicFit(nb.interfaces[r].fields.identities, c, n) != 0;
    }
    NameTakenIs(nb, vm, c, n);
  }

  lemma NameTakenIs(nb: NetBox, vm: nat, c: Container, n: Nic)
    ensures NameTaken(nb, vm, c, n) <==> NameInUse(nb, vm, c, n)
  {
    hide Fold, DisplayName;
    if q :| q in nb.interfaces && nb.interfaces[q].vm == Some(vm)
            && (Fold(nb.interfaces[q].name) == Fold(n.name)
                || Fold(nb.interfaces[q].name) == Fold(DisplayName(c.nics, n))) {
      assert q in Rows(nb, vm);
    }
  }

  lemma RowRankIs(nb: NetBox, vm: nat, c: Container, n: Nic, r: nat)
    requires Ranked(nb, vm, c, n) && r in Rows(nb, vm)
    ensures Rank(nb, r, c, n) == NicFit(nb.interfaces[r].fields.identities, c, n)
  {
    NicRankIs(nb.interfaces[r].fields.identities, c, n);
  }

  /** Without a best row no row fits at all: some fitting row would be best. */
  lemma NoBestIsNoRow(nb: NetBox, vm: nat, c: Container, n: Nic)
    requires Ranked(nb, vm, c, n) && Best(nb, vm, c, n) == {}
    requires forall q :: q in Rows(nb, vm) ==> Rank(nb, q, c, n) == NicFit(nb.interfaces[q].fields.identities, c, n)
    ensures NoRow(nb, vm, c, n)
  {
    hide NicFit, NicRank;
    forall q | q in nb.interfaces && nb.interfaces[q].vm == Some(vm)
      ensures NicFit(nb.interfaces[q].fields.identities, c, n) == 0
    {
      assert q in Rows(nb, vm);
      var top := HighestRank(nb, Rows(nb, vm), c, n);
      assert top !in Best(nb, vm, c, n);
      assert Rank(nb, q, c, n) <= Rank(nb, top, c, n) == NO_MATCH;
    }
  }

  lemma {:induction false} HighestRank(nb: NetBox, rows: set<nat>, c: Container, n: Nic) returns (top: nat)
    requires rows != {}
    ensures top in rows && forall q :: q in rows ==> Rank(nb, q, c, n) <= Rank(nb, top, c, n)
    decreases |rows|
  {
    hide Rank;
    var r :| r in rows;
    var rest := rows - {r};
    if rest == {} {
      assert rows == {r};
      top := r;
    } else {
      var t := HighestRank(nb, rest, c, n);
      top := if Rank(nb, t, c, n) <= Rank(nb, r, c, n) then r else t;
      assert forall q :: q in rows ==> q == r || q in rest;
    }
  }
}
