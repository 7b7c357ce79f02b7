/**
 What every single write of an accepted LXC network batch preserves: assignments,
 primary MACs, foreign metadata, and case-insensitively unique interface names.
 */
module LxcOwnership {
  import opened Wrappers
  import opened Texts
  import opened SourceIdentities
  import opened Guests
  import opened LxcNetworks
  import opened LxcConvergence
  import opened LxcSecondApply

  // ----------------------------------------------------- ownership preserved

  /**
   Metadata outside the interface namespace of one source survives: unmanaged fields, identities of other
   namespaces, original names under other keys and observations of other instances.
   */
  predicate FieldsKept(ns: SourceIdentity, a: CustomFields, b: CustomFields) {
    && b.other == a.other
    && (a.identities.Entries? ==>
          && b.identities.Entries?
          && forall e :: e in a.identities.list && !SameNamespace(e, ns) ==> e in b.identities.list)
    && (a.names.Names? ==>
          && b.names.Names?
          && forall k :: k in a.names.names && k != NameKey(ns) ==>
               k in b.names.names && b.names.names[k] == a.names.names[k])
    && (a.observations.Observed? ==>
          && b.observations.Observed?
          && forall k :: k in a.observations.entries && k != ns.inst ==>
               k in b.observations.entries && b.observations.entries[k] == a.observations.entries[k])
    && (a.observations.ObsInvalid? ==> b.observations == a.observations)
  }

  predicate OwnerKept(a: Owner, b: Owner) {
    a != FREE ==> b == a
  }

  predicate MacsKept(was: map<nat, Mac>, now: map<nat, Mac>) {
    forall m :: m in was ==>
      m in now && now[m].address == was[m].address && OwnerKept(was[m].owner, now[m].owner)
  }

  predicate IpsKept(was: map<nat, Ip>, now: map<nat, Ip>) {
    forall i :: i in was ==>
      && i in now && now[i].address == was[i].address && now[i].vrf == was[i].vrf
      && OwnerKept(was[i].owner, now[i].owner)
  }

  predicate LinksKept(was: map<nat, nat>, now: map<nat, nat>) {
    forall r :: r in was ==> r in now && now[r] == was[r]
  }

  predicate RowsKept(ns: SourceIdentity, was: map<nat, Interface>, now: map<nat, Interface>) {
    forall r :: r in was ==> r in now && now[r].vm == was[r].vm && FieldsKept(ns, was[r].fields, now[r].fields)
  }

  /** `now` keeps every assignment, primary MAC, row and foreign metadata of `nb`. */
  predicate Kept(ns: SourceIdentity, nb: NetBox, now: NetBox) {
    && MacsKept(nb.macs, now.macs)
    && IpsKept(nb.ips, now.ips)
    && LinksKept(nb.primaryMac, now.primaryMac)
    && RowsKept(ns, nb.interfaces, now.interfaces)
    && now.vms == nb.vms
  }

  /** A write that cannot take anything away. */
  predicate Gentle(ns: SourceIdentity, nb: NetBox, now: NetBox, w: Write) {
    match w
    case CreateInterface(id, _, _, _) => id !in nb.interfaces
    case UpdateInterface(id, ch) =>
      id in nb.interfaces && ch.fields.Some? ==> FieldsKept(ns, nb.interfaces[id].fields, ch.fields.value)
    case CreateMac(id, _, _) => id !in nb.macs
    case AssignMac(id, _) => id in now.macs && now.macs[id].owner == FREE
    case SetPrimaryMac(r, m) => r in nb.primaryMac ==> nb.primaryMac[r] == m
    case CreateIp(id, _, _) => id !in nb.ips
    case AssignIp(id, _) => id in now.ips && now.ips[id].owner == FREE
    case SetPrimaryIp(_, _) => true
  }

  lemma GentleKeeps(ns: SourceIdentity, nb: NetBox, now: NetBox, w: Write)
    requires Kept(ns, nb, now) && Gentle(ns, nb, now, w)
    ensures Kept(ns, nb, Apply(now, w))
  {
    hide FieldsKept;
    match w
    case CreateInterface(_, _, _, _) => hide MacsKept, IpsKept, LinksKept;
    case UpdateInterface(_, _) => hide MacsKept, IpsKept, LinksKept;
    case CreateMac(_, _, _) => hide RowsKept, IpsKept, LinksKept;
    case AssignMac(_, _) => hide RowsKept, IpsKept, LinksKept;
    case SetPrimaryMac(_, _) => hide MacsKept, IpsKept, RowsKept;
    case CreateIp(_, _, _) => hide MacsKept, RowsKept, LinksKept;
    case AssignIp(_, _) => hide MacsKept, RowsKept, LinksKept;
    case SetPrimaryIp(_, _) =>
  }

  /** A step whose writes are gentle in any state. */
  predicate Polite(ns: SourceIdentity, nb: NetBox, s: Step) {
    match s
    case EnsureInterface(id, create, _, _, _, ch) =>
      if create then id !in nb.interfaces
      else id in nb.interfaces && ch.fields.Some? ==> FieldsKept(ns, nb.interfaces[id].fields, ch.fields.value)
    case EnsureMac(id, create, _, r) => (create ==> id !in nb.macs) && (r in nb.primaryMac ==> nb.primaryMac[r] == id)
    case EnsureIp(id, create, _, _) => create ==> id !in nb.ips
    case EnsurePrimary(_, _) => true
  }

  /** Where the k-th write of the log comes from. */
  lemma {:induction false} LogWriteAt(nb: NetBox, steps: seq<Step>, k: nat)
    requires k < |Log(nb, steps)|
    ensures exists s :: s in steps && WriteOf(Replay(nb, Log(nb, steps)[..k]), s, Log(nb, steps)[k])
  {
    hide Perform, Replay, After;
    var log := Log(nb, steps);
    var init, last := steps[..|steps| - 1], steps[|steps| - 1];
    var done := Log(nb, init);
    var p := Perform(Run(nb, init), last);
    assert log == done + p;
    if k < |done| {
      LogWriteAt(nb, init, k);
      assert log[..k] == done[..k] && log[k] == done[k];
      var s :| s in init && WriteOf(Replay(nb, done[..k]), s, done[k]);
      assert s in steps;
    } else {
      LogReplays(nb, init);
      assert p[k - |done|] == log[k];
      if k == |done| {
        assert log[..k] == done;
        assert WriteOf(Run(nb, init), last, log[k]);
      } else {
        SecondWrite(Run(nb, init), last, k - |done|);
        assert WriteOf(Replay(nb, log[..k]), last, log[k]);
      }
    }
  }

  /** `w` is the first write of `s` in this state, or the primary-MAC write that follows it. */
  predicate WriteOf(now: NetBox, s: Step, w: Write) {
    || (Perform(now, s) != [] && Perform(now, s)[0] == w)
    || (s.EnsureMac? && w == SetPrimaryMac(s.interface, s.id))
  }

  lemma SecondWrite(nb: NetBox, s: Step, k: nat)
    requires 0 < k < |Perform(nb, s)|
    ensures s.EnsureMac? && Perform(nb, s)[k] == SetPrimaryMac(s.interface, s.id)
  {
  }

  lemma PoliteIsGentle(ns: SourceIdentity, nb: NetBox, now: NetBox, s: Step, w: Write)
    requires Polite(ns, nb, s) && WriteOf(now, s, w)
    ensures Gentle(ns, nb, now, w)
  {
  }

  lemma {:induction false} PrefixKeeps(ns: SourceIdentity, nb: NetBox, steps: seq<Step>, k: nat)
    requires k <= |Log(nb, steps)| && forall s :: s in steps ==> Polite(ns, nb, s)
    ensures Kept(ns, nb, Replay(nb, Log(nb, steps)[..k]))
  {
    hide Polite, Gentle, WriteOf, Log, Kept, Apply;
    var log := Log(nb, steps);
    if k == 0 {
      assert Kept(ns, nb, nb) by { KeptRefl(ns, nb); }
    } else {
      PrefixKeeps(ns, nb, steps, k - 1);
      LogWriteAt(nb, steps, k - 1);
      var s :| s in steps && WriteOf(Replay(nb, log[..k - 1]), s, log[k - 1]);
      PoliteIsGentle(ns, nb, Replay(nb, log[..k - 1]), s, log[k - 1]);
      GentleKeeps(ns, nb, Replay(nb, log[..k - 1]), log[k - 1]);
      assert log[..k][..k - 1] == log[..k - 1];
    }
  }

  lemma KeptRefl(ns: SourceIdentity, nb: NetBox)
    ensures Kept(ns, nb, nb)
  {
  }

  lemma DesiredKeeps(c: Container, n: Nic, cf: CustomFields, ns: SourceIdentity)
    requires DesiredFields(c, n, cf).Some? && SameNamespace(V2(NicIdentity(c, n)), ns)
    ensures FieldsKept(ns, cf, DesiredFields(c, n, cf).value)
  {
  }

  lemma StepsArePolite(nb: NetBox, ids: Ids, cluster: nat, cs: seq<Container>, ns: SourceIdentity, s: Step)
    requires Batch(nb, ids, cluster, cs) && s in Steps(nb, ids, cluster, cs)
    requires forall j :: j in Jobs(cs) ==> SameNamespace(V2(NicIdentity(j.c, j.n)), ns)
    ensures Polite(ns, nb, s)
  {
    hide Steps, NicPasses, NicSteps, Jobs, CanonicalMac, Keys, ContainerPasses, SameNamespace, InterfaceStep, Target,
         FreshIds, MacTarget, IpTarget, MacsAt, IpsAt, FieldsKept;
    StepOrigin(nb, ids, cluster, cs, s);
    if !s.EnsurePrimary? {
      var j :| FromJob(nb, ids, cluster, cs, s, j);
      var vm := VmFor(nb, cluster, j.c);
      JobStepKinds(nb, ids, vm, j, s);
      match s
      case EnsureInterface(_, _, _, _, _, _) => PoliteInterface(nb, ids, vm, j, ns);
      case EnsureMac(_, _, address, r) => PoliteMac(nb, ids, vm, j, address);
      case EnsureIp(_, _, key, _) => IpTargetFacts(nb, ids, key);
    }
  }

  lemma PoliteInterface(nb: NetBox, ids: Ids, vm: nat, j: Job, ns: SourceIdentity)
    requires FreshIds(nb, ids) && NicPasses(nb, vm, j.c, j.n) && SameNamespace(V2(NicIdentity(j.c, j.n)), ns)
    ensures Polite(ns, nb, InterfaceStep(nb, ids, vm, j))
  {
    hide DesiredFields, FieldsKept, MacPasses, IpsPass, FindInterface, Best;
    FindInterfaceFacts(nb, vm, j.c, j.n);
    DesiredKeeps(j.c, j.n, FieldsOf(nb, FindInterface(nb, vm, j.c, j.n)), ns);
  }

  /** An interface that already has a primary MAC keeps it: the preflight admits no other. */
  lemma PoliteMac(nb: NetBox, ids: Ids, vm: nat, j: Job, address: string)
    requires FreshIds(nb, ids) && NicPasses(nb, vm, j.c, j.n) && CanonicalMac(j.n.mac) == Some(address)
    ensures MacsAt(nb, address) == {} ==> MacTarget(nb, ids, address) !in nb.macs
    ensures Target(nb, ids, vm, j) in nb.primaryMac ==>
            nb.primaryMac[Target(nb, ids, vm, j)] == MacTarget(nb, ids, address)
  {
  }

  /**
   No stealing. After every single write of the phase, whatever the batch and the ids: every MAC and
   IP assignment, every primary MAC, every row's VM and all foreign metadata are as they were.
   */
  lemma EveryWriteKeepsOwnership(nb: NetBox, ids: Ids, cluster: nat, cs: seq<Container>, ns: SourceIdentity, k: nat)
    requires Batch(nb, ids, cluster, cs)
    requires forall j :: j in Jobs(cs) ==> SameNamespace(V2(NicIdentity(j.c, j.n)), ns)
    requires k <= |Log(nb, Steps(nb, ids, cluster, cs))|
    ensures Kept(ns, nb, Replay(nb, Log(nb, Steps(nb, ids, cluster, cs))[..k]))
  {
    hide Polite, Kept, Log, Replay, Steps, ContainerPasses, SameNamespace, Jobs, FreshIds;
    var steps := Steps(nb, ids, cluster, cs);
    forall s | s in steps
      ensures Polite(ns, nb, s)
    {
      StepsArePolite(nb, ids, cluster, cs, ns, s);
    }
    PrefixKeeps(ns, nb, steps, k);
  }

  // ------------------------------------------------------------ unique names

  /** Interface names are unique on every VM, ignoring case. */
  ghost predicate UniqueNames(nb: NetBox) {
    forall r, q :: r in nb.interfaces && q in nb.interfaces && r != q
                   && nb.interfaces[r].vm.Some? && nb.interfaces[r].vm == nb.interfaces[q].vm
      ==> Fold(nb.interfaces[r].name) != Fold(nb.interfaces[q].name)
  }

  ghost predicate NamedBy(nb: NetBox, ids: Ids, cluster: nat, cs: seq<Container>, r: nat, vm: Option<nat>,
                          name: string, z: Job) {
    z in Jobs(cs) && r == Target(nb, ids, VmFor(nb, cluster, z.c), z)
    && vm == Some(VmFor(nb, cluster, z.c)) && name == Display(z.c, z.n)
  }

  /** A row has its old name and place, or those of a job that targets it. */
  ghost predicate Named(nb: NetBox, ids: Ids, cluster: nat, cs: seq<Container>, r: nat, vm: Option<nat>, name: string) {
    || (r in nb.interfaces && nb.interfaces[r].vm == vm && nb.interfaces[r].name == name)
    || (exists z :: NamedBy(nb, ids, cluster, cs, r, vm, name, z))
  }

  ghost predicate AllNamed(nb: NetBox, ids: Ids, cluster: nat, cs: seq<Container>, now: NetBox) {
    forall r :: r in now.interfaces ==>
      Named(nb, ids, cluster, cs, r, now.interfaces[r].vm, now.interfaces[r].name)
  }

  /** What an interface step names. */
  lemma InterfaceStepNames(nb: NetBox, ids: Ids, cluster: nat, cs: seq<Container>, s: Step)
    requires Passes(nb, cluster, cs) && s in Steps(nb, ids, cluster, cs) && s.EnsureInterface?
    ensures exists z :: NamedBy(nb, ids, cluster, cs, s.id, Some(s.vm), s.name, z)
    ensures s.changes.name.Some? ==> s.changes.name.value == s.name
    ensures !s.create ==> s.id in nb.interfaces && nb.interfaces[s.id].vm == Some(s.vm)
  {
    hide Steps, NicSteps, Jobs, ContainerPasses, FindInterface, DesiredFields, MacPasses, IpsPass, Best, Display;
    StepOrigin(nb, ids, cluster, cs, s);
    var z :| FromJob(nb, ids, cluster, cs, s, z);
    var vm := VmFor(nb, cluster, z.c);
    JobStepKinds(nb, ids, vm, z, s);
    FindInterfaceFacts(nb, vm, z.c, z.n);
    assert NamedBy(nb, ids, cluster, cs, s.id, Some(s.vm), s.name, z);
  }

  lemma WriteNames(nb: NetBox, ids: Ids, cluster: nat, cs: seq<Container>, now: NetBox, s: Step, w: Write)
    requires Passes(nb, cluster, cs) && s in Steps(nb, ids, cluster, cs) && WriteOf(now, s, w)
    requires AllNamed(nb, ids, cluster, cs, now)
    requires forall r :: r in nb.interfaces && r in now.interfaces ==> now.interfaces[r].vm == nb.interfaces[r].vm
    ensures AllNamed(nb, ids, cluster, cs, Apply(now, w))
  {
    hide Steps, ContainerPasses, NamedBy, NoRepeats;
    if s.EnsureInterface? {
      InterfaceStepNames(nb, ids, cluster, cs, s);
      forall r | r in Apply(now, w).interfaces
        ensures Named(nb, ids, cluster, cs, r, Apply(now, w).interfaces[r].vm, Apply(now, w).interfaces[r].name)
      {
        if r != s.id {
          assert r in now.interfaces;
        }
      }
    } else {
      assert Apply(now, w).interfaces == now.interfaces;
    }
  }

  lemma {:induction false} PrefixNames(nb: NetBox, ids: Ids, cluster: nat, cs: seq<Container>, ns: SourceIdentity,
                                       k: nat)
    requires Batch(nb, ids, cluster, cs) && k <= |Log(nb, Steps(nb, ids, cluster, cs))|
    requires forall j :: j in Jobs(cs) ==> SameNamespace(V2(NicIdentity(j.c, j.n)), ns)
    ensures AllNamed(nb, ids, cluster, cs, Replay(nb, Log(nb, Steps(nb, ids, cluster, cs))[..k]))
  {
    hide Steps, Log, WriteOf, Apply, ContainerPasses, NoRepeats, FreshIds, InjectiveIdentities, OneSource, NamedBy,
         SameNamespace, Jobs;
    var steps := Steps(nb, ids, cluster, cs);
    var log := Log(nb, steps);
    if k > 0 {
      PrefixNames(nb, ids, cluster, cs, ns, k - 1);
      LogWriteAt(nb, steps, k - 1);
      var now := Replay(nb, log[..k - 1]);
      var s :| s in steps && WriteOf(now, s, log[k - 1]);
      EveryWriteKeepsOwnership(nb, ids, cluster, cs, ns, k - 1);
      KeptVms(ns, nb, now);
      WriteNames(nb, ids, cluster, cs, now, s, log[k - 1]);
      assert log[..k][..k - 1] == log[..k - 1];
    }
  }

  lemma KeptVms(ns: SourceIdentity, nb: NetBox, now: NetBox)
    requires Kept(ns, nb, now)
    ensures forall r :: r in nb.interfaces && r in now.interfaces ==> now.interfaces[r].vm == nb.interfaces[r].vm
  {
  }

  lemma NamedAreUnique(nb: NetBox, ids: Ids, cluster: nat, cs: seq<Container>, now: NetBox)
    requires Batch(nb, ids, cluster, cs) && DistinctNames(nb, cluster, cs) && UniqueNames(nb)
    requires AllNamed(nb, ids, cluster, cs, now)
    ensures UniqueNames(now)
  {
    hide Fold, Display, Target, ContainerPasses, NoRepeats, FreshIds, InjectiveIdentities, OneSource, Jobs, NamedBy;
    forall r, q | r in now.interfaces && q in now.interfaces && r != q
                  && now.interfaces[r].vm.Some? && now.interfaces[r].vm == now.interfaces[q].vm
      ensures Fold(now.interfaces[r].name) != Fold(now.interfaces[q].name)
    {
      var vm, nr, nq := now.interfaces[r].vm, now.interfaces[r].name, now.interfaces[q].name;
      assert Named(nb, ids, cluster, cs, r, vm, nr) && Named(nb, ids, cluster, cs, q, vm, nq);
      if z :| NamedBy(nb, ids, cluster, cs, r, vm, nr, z) {
        if w :| NamedBy(nb, ids, cluster, cs, q, vm, nq, w) {
          TwoJobsNames(nb, ids, cluster, cs, r, q, vm, nr, nq, z, w);
        } else {
          JobAgainstRow(nb, ids, cluster, cs, r, q, vm, nr, z);
        }
      } else {
        if w :| NamedBy(nb, ids, cluster, cs, q, vm, nq, w) {
          JobAgainstRow(nb, ids, cluster, cs, q, r, vm, nq, w);
        }
      }
    }
  }

  lemma TwoJobsNames(nb: NetBox, ids: Ids, cluster: nat, cs: seq<Container>, r: nat, q: nat, vm: Option<nat>,
                     nr: string, nq: string, z: Job, w: Job)
    requires Passes(nb, cluster, cs) && DistinctNames(nb, cluster, cs) && r != q
    requires NamedBy(nb, ids, cluster, cs, r, vm, nr, z) && NamedBy(nb, ids, cluster, cs, q, vm, nq, w)
    ensures Fold(nr) != Fold(nq)
  {
    hide Fold, Display, Target, ContainerPasses, Jobs;
  }

  /** The preflight refused a name held by a row that is not the job's own. */
  lemma JobAgainstRow(nb: NetBox, ids: Ids, cluster: nat, cs: seq<Container>, r: nat, q: nat, vm: Option<nat>,
                      name: string, z: Job)
    requires Passes(nb, cluster, cs) && NamedBy(nb, ids, cluster, cs, r, vm, name, z)
    requires r != q && q in nb.interfaces && nb.interfaces[q].vm == vm
    ensures Fold(nb.interfaces[q].name) != Fold(name)
  {
    hide Fold, Display, FindInterface, NicPasses, Jobs, NoRepeats;
    JobPasses(nb, ids, cluster, cs, z);
    TargetFacts(nb, ids, vm.value, z);
    assert q in Rows(nb, vm.value);
    assert NamesPass(nb, vm.value, z.c);
  }

  /** Unique names stay unique after every single write when same-VM jobs have distinct names. */
  lemma EveryWriteKeepsNamesUnique(nb: NetBox, ids: Ids, cluster: nat, cs: seq<Container>, ns: SourceIdentity, k: nat)
    requires Batch(nb, ids, cluster, cs) && UniqueNames(nb) && DistinctNames(nb, cluster, cs)
    requires forall j :: j in Jobs(cs) ==> SameNamespace(V2(NicIdentity(j.c, j.n)), ns)
    requires k <= |Log(nb, Steps(nb, ids, cluster, cs))|
    ensures UniqueNames(Replay(nb, Log(nb, Steps(nb, ids, cluster, cs))[..k]))
  {
    hide Steps, Log, Replay, ContainerPasses, AllNamed, UniqueNames, DistinctNames, Jobs, FreshIds, SameNamespace;
    PrefixNames(nb, ids, cluster, cs, ns, k);
    NamedAreUnique(nb, ids, cluster, cs, Replay(nb, Log(nb, Steps(nb, ids, cluster, cs))[..k]));
  }

  /** Otherwise the phase ends with a duplicate name: the condition is exact for batches with distinct records. */
  lemma SharedNameEndsDuplicated(nb: NetBox, ids: Ids, cluster: nat, cs: seq<Container>)
    requires Batch(nb, ids, cluster, cs) && DistinctRecords(nb, cluster, cs)
    requires UniqueNames(Applied(nb, ids, cluster, cs))
    ensures DistinctNames(nb, cluster, cs)
  {
    hide Steps, ContainerPasses, Target, Fold, Jobs, FreshIds, InjectiveIdentities, OneSource, DistinctRecords,
         NicPasses, Met, InterfaceStep, Applied, Display, FindInterface;
    var after := Applied(nb, ids, cluster, cs);
    forall a, b | a in Jobs(cs) && b in Jobs(cs) && a != b && VmFor(nb, cluster, a.c) == VmFor(nb, cluster, b.c)
      ensures Fold(Display(a.c, a.n)) != Fold(Display(b.c, b.n))
    {
      SettledName(nb, ids, cluster, cs, a);
      SettledName(nb, ids, cluster, cs, b);
      if Target(nb, ids, VmFor(nb, cluster, a.c), a) == Target(nb, ids, VmFor(nb, cluster, b.c), b) {
        TargetsDistinct(nb, ids, cluster, cs, a, b);
      }
    }
  }

  /** Names are unique before, between and after the logged writes. */
  ghost predicate AlwaysUnique(nb: NetBox, log: seq<Write>) {
    forall k :: 0 <= k <= |log| ==> UniqueNames(Replay(nb, log[..k]))
  }

  lemma UniqueAtEnd(nb: NetBox, log: seq<Write>)
    requires AlwaysUnique(nb, log)
    ensures UniqueNames(Replay(nb, log))
  {
    assert log[..|log|] == log;
  }

  /**
   The exact condition for the name promise. For an accepted batch whose jobs use distinct records, names
   that were unique stay unique after every single write if and only if same-VM jobs have distinct names.
   */
  lemma NamesStayUniqueIffDistinct(nb: NetBox, ids: Ids, cluster: nat, cs: seq<Container>, ns: SourceIdentity)
    requires Batch(nb, ids, cluster, cs) && UniqueNames(nb) && DistinctRecords(nb, cluster, cs)
    requires forall j :: j in Jobs(cs) ==> SameNamespace(V2(NicIdentity(j.c, j.n)), ns)
    ensures DistinctNames(nb, cluster, cs) <==> AlwaysUnique(nb, Log(nb, Steps(nb, ids, cluster, cs)))
  {
    hide Steps, Log, Replay, ContainerPasses, UniqueNames, DistinctNames, Jobs, FreshIds, SameNamespace,
         DistinctRecords;
    var log := Log(nb, Steps(nb, ids, cluster, cs));
    if DistinctNames(nb, cluster, cs) {
      forall k | 0 <= k <= |log|
        ensures UniqueNames(Replay(nb, log[..k]))
      {
        EveryWriteKeepsNamesUnique(nb, ids, cluster, cs, ns, k);
      }
    }
    if AlwaysUnique(nb, log) {
      UniqueAtEnd(nb, log);
      LogReplays(nb, Steps(nb, ids, cluster, cs));
      SharedNameEndsDuplicated(nb, ids, cluster, cs);
    }
  }

  lemma SettledName(nb: NetBox, ids: Ids, cluster: nat, cs: seq<Container>, j: Job)
    requires Batch(nb, ids, cluster, cs) && DistinctRecords(nb, cluster, cs) && j in Jobs(cs)
    ensures var t, after := Target(nb, ids, VmFor(nb, cluster, j.c), j), Applied(nb, ids, cluster, cs);
      t in after.interfaces && after.interfaces[t].vm == Some(VmFor(nb, cluster, j.c))
      && after.interfaces[t].name == Display(j.c, j.n)
  {
    hide Steps, NicPasses, Jobs, FreshIds, InjectiveIdentities, OneSource, DistinctRecords, Applied, Display,
         FindInterface, DesiredFields;
    JobPasses(nb, ids, cluster, cs, j);
    var vm := VmFor(nb, cluster, j.c);
    var s := InterfaceStep(nb, ids, vm, j);
    JobStepsMember(nb, ids, vm, j, s);
    assert FromJob(nb, ids, cluster, cs, s, j);
    JobStepIn(nb, ids, cluster, cs, s, j);
    AppliedMeetsStep(nb, ids, cluster, cs, s);
  }
}
