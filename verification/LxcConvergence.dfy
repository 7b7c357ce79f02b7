/**
 A second LXC network apply writes nothing, exactly when the batch is separate:
 no two discovered interfaces contend for one NetBox record.
 */
module LxcConvergence {
  import opened Wrappers
  import opened Texts
  import opened SourceIdentities
  import opened Guests
  import opened LxcNetworks

  // ------------------------------------------------------------- assumptions

  predicate OneSource(cs: seq<Container>) {
    forall a, b :: a in cs && b in cs ==> a.source == b.source && a.inst == b.inst
  }

  /** A source identity names one discovered interface. */
  predicate InjectiveIdentities(cs: seq<Container>) {
    var jobs := Jobs(cs);
    forall i, j :: 0 <= i < j < |jobs| ==> NicIdentity(jobs[i].c, jobs[i].n) != NicIdentity(jobs[j].c, jobs[j].n)
  }

  /** An accepted batch of one source, and any ids NetBox may hand out. */
  ghost predicate Batch(nb: NetBox, ids: Ids, cluster: nat, cs: seq<Container>) {
    Passes(nb, cluster, cs) && FreshIds(nb, ids) && OneSource(cs) && InjectiveIdentities(cs)
  }

  /** The VM of a container that passes the preflight. */
  ghost function VmFor(nb: NetBox, cluster: nat, c: Container): nat {
    match FindVm(nb, cluster, c)
    case Some(v) => v
    case None => 0
  }

  // --------------------------------------------------------------- condition

  ghost predicate DistinctRecords(nb: NetBox, cluster: nat, cs: seq<Container>)
    requires Passes(nb, cluster, cs)
  {
    forall a, b :: a in Jobs(cs) && b in Jobs(cs) && a != b
                   && FindInterface(nb, VmFor(nb, cluster, a.c), a.c, a.n).At?
      ==> FindInterface(nb, VmFor(nb, cluster, a.c), a.c, a.n) != FindInterface(nb, VmFor(nb, cluster, b.c), b.c, b.n)
  }

  ghost predicate DistinctNames(nb: NetBox, cluster: nat, cs: seq<Container>)
    requires Passes(nb, cluster, cs)
  {
    forall a, b :: a in Jobs(cs) && b in Jobs(cs) && a != b && VmFor(nb, cluster, a.c) == VmFor(nb, cluster, b.c)
      ==> Fold(Display(a.c, a.n)) != Fold(Display(b.c, b.n))
  }

  /** A legacy record of `a` on the row of `b` hides `b`'s identity from the former-key lookup. */
  ghost predicate Hidden(nb: NetBox, vm: nat, a: Job, b: Job) {
    var f := FindInterface(nb, vm, b.c, b.n);
    && a.c.legacyOwner
    && f.At?
    && FieldsOf(nb, f).identities.Entries?
    && HasLegacy(FieldsOf(nb, f).identities.list, a.c.source, LegacyNicId(a.c, a.n))
  }

  ghost predicate DistinctKeys(nb: NetBox, cluster: nat, cs: seq<Container>)
    requires Passes(nb, cluster, cs)
  {
    forall a, b :: a in Jobs(cs) && b in Jobs(cs) && a != b && VmFor(nb, cluster, a.c) == VmFor(nb, cluster, b.c)
                   && ReadsFormer(a.c, a.n) && FormerNicIdentity(a.c, a.n) == NicIdentity(b.c, b.n)
      ==> Hidden(nb, VmFor(nb, cluster, b.c), a, b)
  }

  ghost predicate DistinctPrimaries(nb: NetBox, cluster: nat, cs: seq<Container>)
    requires Passes(nb, cluster, cs)
  {
    forall c, d :: c in cs && d in cs && c != d && VmFor(nb, cluster, c) == VmFor(nb, cluster, d)
      ==> Candidate(nb, VmFor(nb, cluster, c), c).None? || Candidate(nb, VmFor(nb, cluster, d), d).None?
  }

  /** No two discovered interfaces contend for a record, a name, a key or a primary address. */
  ghost predicate Separate(nb: NetBox, cluster: nat, cs: seq<Container>)
    requires Passes(nb, cluster, cs)
  {
    && DistinctRecords(nb, cluster, cs)
    && DistinctNames(nb, cluster, cs)
    && DistinctKeys(nb, cluster, cs)
    && DistinctPrimaries(nb, cluster, cs)
  }

  // ------------------------------------------------------ basic consequences

  lemma {:induction false} DiscoveredMembers(jobs: seq<Job>, j: Job)
    requires j in jobs && CanonicalMac(j.n.mac).Some?
    ensures CanonicalMac(j.n.mac).value in Discovered(jobs)
  {
    if jobs[0] != j {
      DiscoveredMembers(jobs[1..], j);
    }
  }

  lemma {:induction false} MacNamesOneJob(jobs: seq<Job>, a: Job, b: Job)
    requires NoRepeats(Discovered(jobs)) && a in jobs && b in jobs
    requires CanonicalMac(a.n.mac).Some? && CanonicalMac(a.n.mac) == CanonicalMac(b.n.mac)
    ensures a == b
  {
    if a != b {
      var head, rest := (if CanonicalMac(jobs[0].n.mac).Some? then [CanonicalMac(jobs[0].n.mac).value] else []),
                        Discovered(jobs[1..]);
      assert Discovered(jobs) == head + rest;
      TailNoRepeats(head, rest);
      if jobs[0] == a {
        DiscoveredMembers(jobs[1..], b);
      } else if jobs[0] == b {
        DiscoveredMembers(jobs[1..], a);
      } else {
        MacNamesOneJob(jobs[1..], a, b);
      }
    }
  }

  lemma TailNoRepeats<T>(head: seq<T>, rest: seq<T>)
    requires NoRepeats(head + rest)
    ensures NoRepeats(rest)
    ensures forall x :: x in head ==> x !in rest
  {
    var s := head + rest;
    forall i, j | 0 <= i < j < |rest|
      ensures rest[i] != rest[j]
    {
      assert s[|head| + i] == rest[i] && s[|head| + j] == rest[j];
    }
    forall i, j | 0 <= i < |head| && 0 <= j < |rest|
      ensures head[i] != rest[j]
    {
      assert s[i] == head[i] && s[|head| + j] == rest[j];
    }
  }

  lemma {:induction false} DiscoveredIpMembers(jobs: seq<Job>, j: Job, k: IpKey)
    requires j in jobs && k in Keys(j.n)
    ensures k in DiscoveredIps(jobs)
  {
    if jobs[0] != j {
      DiscoveredIpMembers(jobs[1..], j, k);
    }
  }

  lemma {:induction false} IpNamesOneJob(jobs: seq<Job>, a: Job, b: Job, k: IpKey)
    requires NoRepeats(DiscoveredIps(jobs)) && a in jobs && b in jobs
    requires k in Keys(a.n) && k in Keys(b.n)
    ensures a == b
  {
    if a != b {
      TailNoRepeats(Keys(jobs[0].n), DiscoveredIps(jobs[1..]));
      if jobs[0] == a {
        DiscoveredIpMembers(jobs[1..], b, k);
      } else if jobs[0] == b {
        DiscoveredIpMembers(jobs[1..], a, k);
      } else {
        IpNamesOneJob(jobs[1..], a, b, k);
      }
    }
  }

  lemma IdentityNamesOneJob(cs: seq<Container>, a: Job, b: Job)
    requires InjectiveIdentities(cs) && a in Jobs(cs) && b in Jobs(cs)
    requires NicIdentity(a.c, a.n) == NicIdentity(b.c, b.n)
    ensures a == b
  {
  }

  lemma FindInterfaceFacts(nb: NetBox, vm: nat, c: Container, n: Nic)
    ensures var f := FindInterface(nb, vm, c, n);
      && (f.At? ==> Best(nb, vm, c, n) == {f.id} && f.id in Rows(nb, vm) && Ranked(nb, vm, c, n))
      && (f.Absent? ==> Best(nb, vm, c, n) == {} && Ranked(nb, vm, c, n) && !NameTaken(nb, vm, c, n))
  {
  }

  lemma FindInterfaceIs(nb: NetBox, vm: nat, c: Container, n: Nic, r: nat)
    requires Ranked(nb, vm, c, n) && Best(nb, vm, c, n) == {r}
    ensures FindInterface(nb, vm, c, n) == At(r)
  {
  }

  /** A row that is not the chosen one ranks below a v2 match. */
  lemma OtherRowsRankLow(nb: NetBox, vm: nat, c: Container, n: Nic, r: nat)
    requires FindInterface(nb, vm, c, n) != Refused
    requires r in Rows(nb, vm) && FindInterface(nb, vm, c, n) != At(r)
    ensures NicRank(nb.interfaces[r].fields.identities, c, n).Some? && Rank(nb, r, c, n) < V2_MATCH
  {
    FindInterfaceFacts(nb, vm, c, n);
    forall q | q in Rows(nb, vm)
      ensures Rank(nb, q, c, n) <= V2_MATCH
    {
      NicRankLevels(nb.interfaces[q].fields.identities, c, n);
    }
    assert r !in Best(nb, vm, c, n);
  }

  lemma MacTargetFacts(nb: NetBox, ids: Ids, address: string)
    requires FreshIds(nb, ids)
    ensures MacsAt(nb, address) == {} ==> MacTarget(nb, ids, address) == ids.mac(address)
                                          && MacTarget(nb, ids, address) !in nb.macs
    ensures MacsAt(nb, address) != {} ==> MacTarget(nb, ids, address) in MacsAt(nb, address)
  {
  }

  lemma IpTargetFacts(nb: NetBox, ids: Ids, key: IpKey)
    requires FreshIds(nb, ids)
    ensures IpsAt(nb, key) == {} ==> IpTarget(nb, ids, key) == ids.ip(key) && IpTarget(nb, ids, key) !in nb.ips
    ensures IpsAt(nb, key) != {} ==> IpTarget(nb, ids, key) in IpsAt(nb, key)
  {
  }

  lemma MacTargetsDistinct(nb: NetBox, ids: Ids, a: string, b: string)
    requires FreshIds(nb, ids) && MacTarget(nb, ids, a) == MacTarget(nb, ids, b)
    ensures a == b
  {
  }

  lemma IpTargetsDistinct(nb: NetBox, ids: Ids, a: IpKey, b: IpKey)
    requires FreshIds(nb, ids) && IpTarget(nb, ids, a) == IpTarget(nb, ids, b)
    ensures a == b
  {
  }

  lemma JobPasses(nb: NetBox, ids: Ids, cluster: nat, cs: seq<Container>, j: Job)
    requires Passes(nb, cluster, cs) && j in Jobs(cs)
    ensures ContainerPasses(nb, cluster, j.c) && NicPasses(nb, VmFor(nb, cluster, j.c), j.c, j.n)
  {
  }

  lemma TargetsDistinct(nb: NetBox, ids: Ids, cluster: nat, cs: seq<Container>, a: Job, b: Job)
    requires Batch(nb, ids, cluster, cs) && DistinctRecords(nb, cluster, cs)
    requires a in Jobs(cs) && b in Jobs(cs)
    requires Target(nb, ids, VmFor(nb, cluster, a.c), a) == Target(nb, ids, VmFor(nb, cluster, b.c), b)
    ensures a == b
  {
    FindInterfaceFacts(nb, VmFor(nb, cluster, a.c), a.c, a.n);
    FindInterfaceFacts(nb, VmFor(nb, cluster, b.c), b.c, b.n);
    JobPasses(nb, ids, cluster, cs, a);
    JobPasses(nb, ids, cluster, cs, b);
    var fa := FindInterface(nb, VmFor(nb, cluster, a.c), a.c, a.n);
    var fb := FindInterface(nb, VmFor(nb, cluster, b.c), b.c, b.n);
    if fa.At? && fb.At? {
    } else if fa.Absent? && fb.Absent? {
      IdentityNamesOneJob(cs, a, b);
    }
  }

  // ------------------------------------------------------------ step origins

  ghost predicate FromJob(nb: NetBox, ids: Ids, cluster: nat, cs: seq<Container>, s: Step, j: Job)
    requires Passes(nb, cluster, cs)
  {
    && j in Jobs(cs)
    && NicPasses(nb, VmFor(nb, cluster, j.c), j.c, j.n)
    && s in NicSteps(nb, ids, VmFor(nb, cluster, j.c), j)
  }

  ghost predicate FromContainer(nb: NetBox, ids: Ids, cluster: nat, cs: seq<Container>, s: Step, c: Container)
    requires Passes(nb, cluster, cs)
  {
    c in cs && s in PrimarySteps(nb, ids, VmFor(nb, cluster, c), c)
  }

  lemma StepOrigin(nb: NetBox, ids: Ids, cluster: nat, cs: seq<Container>, s: Step)
    requires Passes(nb, cluster, cs) && s in Steps(nb, ids, cluster, cs)
    ensures !s.EnsurePrimary? ==> exists j :: FromJob(nb, ids, cluster, cs, s, j)
    ensures s.EnsurePrimary? ==> exists c :: FromContainer(nb, ids, cluster, cs, s, c)
  {
    hide NicPasses, Steps, NicSteps, NamesPass, FindVm, NoRepeats, PrimarySteps, NicsSteps;
    StepsMember(nb, ids, cluster, cs, s);
    var c :| c in cs && s in ContainerSteps(nb, ids, cluster, c);
    var vm := VmFor(nb, cluster, c);
    if s in NicsSteps(nb, ids, vm, c, c.nics) {
      NicsStepsMember(nb, ids, vm, c, c.nics, s);
      var n :| n in c.nics && s in NicSteps(nb, ids, vm, Job(c, n));
      JobStepKinds(nb, ids, vm, Job(c, n), s);
      assert FromJob(nb, ids, cluster, cs, s, Job(c, n));
    } else {
      PrimaryStepKind(nb, ids, vm, c, s);
      assert FromContainer(nb, ids, cluster, cs, s, c);
    }
  }

  lemma PrimaryStepKind(nb: NetBox, ids: Ids, vm: nat, c: Container, s: Step)
    requires s in PrimarySteps(nb, ids, vm, c)
    ensures Candidate(nb, vm, c).Some? && s == EnsurePrimary(vm, IpTarget(nb, ids, Candidate(nb, vm, c).value))
  {
  }

  lemma JobStepIn(nb: NetBox, ids: Ids, cluster: nat, cs: seq<Container>, s: Step, j: Job)
    requires Passes(nb, cluster, cs) && FromJob(nb, ids, cluster, cs, s, j)
    ensures s in Steps(nb, ids, cluster, cs)
  {
    hide NicPasses, Steps, NicSteps, NamesPass, FindVm, NoRepeats, PrimarySteps, NicsSteps;
    var vm := VmFor(nb, cluster, j.c);
    assert Job(j.c, j.n) == j;
    NicsStepsMember(nb, ids, vm, j.c, j.c.nics, s);
    assert s in ContainerSteps(nb, ids, cluster, j.c);
    StepsMember(nb, ids, cluster, cs, s);
  }

  lemma ContainerStepIn(nb: NetBox, ids: Ids, cluster: nat, cs: seq<Container>, s: Step, c: Container)
    requires Passes(nb, cluster, cs) && FromContainer(nb, ids, cluster, cs, s, c)
    ensures s in Steps(nb, ids, cluster, cs)
  {
    hide NicPasses, Steps, NicSteps, NamesPass, FindVm, NoRepeats, PrimarySteps, NicsSteps;
    assert s in ContainerSteps(nb, ids, cluster, c);
    StepsMember(nb, ids, cluster, cs, s);
  }

  /** The shape of each step of a job. */
  lemma JobStepKinds(nb: NetBox, ids: Ids, vm: nat, j: Job, s: Step)
    requires NicPasses(nb, vm, j.c, j.n) && s in NicSteps(nb, ids, vm, j)
    ensures s.EnsureInterface? ==> s == InterfaceStep(nb, ids, vm, j) && s.id == Target(nb, ids, vm, j)
    ensures s.EnsureMac? ==>
      && CanonicalMac(j.n.mac) == Some(s.address)
      && s == EnsureMac(MacTarget(nb, ids, s.address), MacsAt(nb, s.address) == {}, s.address, Target(nb, ids, vm, j))
    ensures s.EnsureIp? ==> s.key in Keys(j.n) && s == IpStep(nb, ids, Target(nb, ids, vm, j), s.key)
    ensures !s.EnsurePrimary?
    ensures s == InterfaceStep(nb, ids, vm, j) || s in MacSteps(nb, ids, vm, j)
            || s in IpSteps(nb, ids, Target(nb, ids, vm, j), Keys(j.n))
  {
    hide NicPasses, DesiredFields, FindInterface, MacTarget, IpTarget, Keys, CanonicalMac, MacsAt, IpsAt, IpSteps;
    IpStepsMember(nb, ids, Target(nb, ids, vm, j), Keys(j.n), s);
  }

  lemma JobStepsMember(nb: NetBox, ids: Ids, vm: nat, j: Job, s: Step)
    requires NicPasses(nb, vm, j.c, j.n)
    requires s == InterfaceStep(nb, ids, vm, j) || s in MacSteps(nb, ids, vm, j)
             || (s.EnsureIp? && s.key in Keys(j.n) && s == IpStep(nb, ids, Target(nb, ids, vm, j), s.key))
    ensures s in NicSteps(nb, ids, vm, j)
  {
    hide NicPasses, InterfaceStep, MacSteps, IpStep, Keys, IpSteps, Target;
    IpStepsMember(nb, ids, Target(nb, ids, vm, j), Keys(j.n), s);
  }

  // --------------------------------------------------------- executing steps

  function DesiredRow(s: Step): Interface
    requires s.EnsureInterface?
  {
    Interface(Some(s.vm), s.name, true, s.fields)
  }

  /** The step's goal holds. */
  predicate Met(nb: NetBox, s: Step) {
    match s
    case EnsureInterface(id, _, _, _, _, _) => id in nb.interfaces && nb.interfaces[id] == DesiredRow(s)
    case EnsureMac(id, _, address, interface) =>
      && id in nb.macs && CanonicalMac(nb.macs[id].address) == Some(address)
      && nb.macs[id].owner == OfInterface(interface)
      && interface in nb.primaryMac && nb.primaryMac[interface] == id
    case EnsureIp(id, _, key, interface) =>
      && id in nb.ips && Canonical(nb.ips[id].address) == Some(key.iface) && nb.ips[id].vrf == key.vrf
      && nb.ips[id].owner == OfInterface(interface)
    case EnsurePrimary(vm, ip) => vm in nb.primaryIp && nb.primaryIp[vm] == ip
  }

  /** Executing the step now reaches its goal. */
  predicate Ready(nb: NetBox, s: Step) {
    match s
    case EnsureInterface(id, create, vm, name, fields, ch) =>
      && (ch.name.Some? ==> ch.name.value == name)
      && (ch.fields.Some? ==> ch.fields.value == fields)
      && (!create ==> id in nb.interfaces && Changed(nb.interfaces[id], ch) == DesiredRow(s))
    case EnsureMac(id, create, address, interface) =>
      && CanonicalMac(Some(address)) == Some(address)
      && (!create ==>
           && id in nb.macs && CanonicalMac(nb.macs[id].address) == Some(address)
           && (nb.macs[id].owner == FREE || nb.macs[id].owner == OfInterface(interface)))
    case EnsureIp(id, create, key, interface) =>
      !create ==>
        && id in nb.ips && Canonical(nb.ips[id].address) == Some(key.iface) && nb.ips[id].vrf == key.vrf
        && (nb.ips[id].owner == FREE || nb.ips[id].owner == OfInterface(interface))
    case EnsurePrimary(_, _) => true
  }

  /** The two steps write a common record or link. */
  predicate SameCell(s: Step, t: Step) {
    || (s.EnsureInterface? && t.EnsureInterface? && s.id == t.id)
    || (s.EnsureMac? && t.EnsureMac? && (s.id == t.id || s.interface == t.interface))
    || (s.EnsureIp? && t.EnsureIp? && s.id == t.id)
    || (s.EnsurePrimary? && t.EnsurePrimary? && s.vm == t.vm)
  }

  /** NetBox after one step, record by record. */
  function Settled(nb: NetBox, s: Step): NetBox {
    match s
    case EnsureInterface(id, create, vm, name, fields, ch) =>
      if create then nb.(interfaces := nb.interfaces[id := Interface(Some(vm), name, true, fields)])
      else if ch != NO_CHANGES && id in nb.interfaces
           then nb.(interfaces := nb.interfaces[id := Changed(nb.interfaces[id], ch)])
      else nb
    case EnsureMac(id, create, address, interface) =>
      nb.(
        macs := if create then nb.macs[id := Mac(Some(address), OfInterface(interface))]
                else if id in nb.macs && nb.macs[id].owner == FREE
                     then nb.macs[id := nb.macs[id].(owner := OfInterface(interface))]
                else nb.macs,
        primaryMac := if interface in nb.primaryMac && nb.primaryMac[interface] == id then nb.primaryMac
                      else nb.primaryMac[interface := id])
    case EnsureIp(id, create, key, interface) =>
      if create then nb.(ips := nb.ips[id := Ip(Spelled(key.iface, 0), key.vrf, OfInterface(interface))])
      else if id in nb.ips && nb.ips[id].owner == FREE
           then nb.(ips := nb.ips[id := nb.ips[id].(owner := OfInterface(interface))])
      else nb
    case EnsurePrimary(vm, ip) =>
      if vm in nb.primaryIp && nb.primaryIp[vm] == ip then nb else nb.(primaryIp := nb.primaryIp[vm := ip])
  }

  lemma ReplayOne(nb: NetBox, w: Write)
    ensures Replay(nb, [w]) == Apply(nb, w)
  {
  }

  lemma ReplayTwo(nb: NetBox, v: Write, w: Write)
    ensures Replay(nb, [v, w]) == Apply(Apply(nb, v), w)
  {
    assert [v, w][..1] == [v];
    ReplayOne(nb, v);
  }

  lemma AfterIsSettled(nb: NetBox, s: Step)
    ensures After(nb, s) == Settled(nb, s)
  {
    if s.EnsureMac? {
      MacIsSettled(nb, s);
    } else {
      hide Replay, Changed;
      var p := Perform(nb, s);
      if |p| == 1 {
        assert p == [p[0]];
        ReplayOne(nb, p[0]);
      } else {
        ReplayNone(nb);
      }
    }
  }

  /** A MAC step is the only one with two writes. */
  lemma MacIsSettled(nb: NetBox, s: Step)
    requires s.EnsureMac?
    ensures After(nb, s) == Settled(nb, s)
  {
    hide Replay;
    var p := Perform(nb, s);
    if |p| == 1 {
      assert p == [p[0]];
      ReplayOne(nb, p[0]);
    } else if |p| == 2 {
      assert p == [p[0], p[1]];
      ReplayTwo(nb, p[0], p[1]);
    } else {
      ReplayNone(nb);
    }
  }

  lemma ReplayNone(nb: NetBox)
    ensures Replay(nb, []) == nb
  {
  }

  lemma StepMeets(nb: NetBox, s: Step)
    requires Ready(nb, s)
    ensures Met(Settled(nb, s), s) && Ready(Settled(nb, s), s)
  {
    hide Met, Ready, Settled;
    match s
    case EnsureInterface(_, _, _, _, _, _) => InterfaceMeets(nb, s);
    case EnsureMac(_, _, _, _) => MacMeets(nb, s);
    case EnsureIp(_, _, _, _) => IpMeets(nb, s);
    case EnsurePrimary(_, _) => PrimaryMeets(nb, s);
  }

  lemma InterfaceMeets(nb: NetBox, s: Step)
    requires s.EnsureInterface? && Ready(nb, s)
    ensures Met(Settled(nb, s), s) && Ready(Settled(nb, s), s)
  {
  }

  lemma MacMeets(nb: NetBox, s: Step)
    requires s.EnsureMac? && Ready(nb, s)
    ensures Met(Settled(nb, s), s) && Ready(Settled(nb, s), s)
  {
    hide CanonicalMac;
  }

  lemma IpMeets(nb: NetBox, s: Step)
    requires s.EnsureIp? && Ready(nb, s)
    ensures Met(Settled(nb, s), s) && Ready(Settled(nb, s), s)
  {
  }

  lemma PrimaryMeets(nb: NetBox, s: Step)
    requires s.EnsurePrimary? && Ready(nb, s)
    ensures Met(Settled(nb, s), s) && Ready(Settled(nb, s), s)
  {
  }

  lemma SparesInterface(nb: NetBox, s: Step, r: nat)
    requires !(s.EnsureInterface? && s.id == r)
    ensures r in Settled(nb, s).interfaces <==> r in nb.interfaces
    ensures r in nb.interfaces ==> Settled(nb, s).interfaces[r] == nb.interfaces[r]
  {
    hide Changed;
    match s
    case EnsureInterface(_, create, _, _, _, _) => if create { }
    case EnsureMac(_, _, _, _) =>
    case EnsureIp(_, create, _, _) => if create { }
    case EnsurePrimary(_, _) =>
  }

  lemma SparesMac(nb: NetBox, s: Step, m: nat)
    requires !(s.EnsureMac? && s.id == m)
    ensures m in Settled(nb, s).macs <==> m in nb.macs
    ensures m in nb.macs ==> Settled(nb, s).macs[m] == nb.macs[m]
  {
  }

  lemma SparesPrimaryMac(nb: NetBox, s: Step, r: nat)
    requires !(s.EnsureMac? && s.interface == r)
    ensures r in Settled(nb, s).primaryMac <==> r in nb.primaryMac
    ensures r in nb.primaryMac ==> Settled(nb, s).primaryMac[r] == nb.primaryMac[r]
  {
  }

  lemma SparesIp(nb: NetBox, s: Step, i: nat)
    requires !(s.EnsureIp? && s.id == i)
    ensures i in Settled(nb, s).ips <==> i in nb.ips
    ensures i in nb.ips ==> Settled(nb, s).ips[i] == nb.ips[i]
  {
    hide Changed;
    match s
    case EnsureInterface(_, create, _, _, _, _) => if create { }
    case EnsureMac(_, _, _, _) =>
    case EnsureIp(_, create, _, _) => if create { }
    case EnsurePrimary(_, _) =>
  }

  lemma SparesPrimaryIp(nb: NetBox, s: Step, vm: nat)
    requires !(s.EnsurePrimary? && s.vm == vm)
    ensures vm in Settled(nb, s).primaryIp <==> vm in nb.primaryIp
    ensures vm in nb.primaryIp ==> Settled(nb, s).primaryIp[vm] == nb.primaryIp[vm]
  {
  }

  lemma StepSpares(nb: NetBox, s: Step, t: Step)
    requires !SameCell(s, t)
    ensures Ready(nb, t) ==> Ready(Settled(nb, s), t)
    ensures Met(nb, t) ==> Met(Settled(nb, s), t)
  {
    match t
    case EnsureInterface(id, _, _, _, _, _) =>
      SparesInterface(nb, s, id);
    case EnsureMac(id, _, _, interface) =>
      SparesMac(nb, s, id);
      SparesPrimaryMac(nb, s, interface);
    case EnsureIp(id, _, _, _) =>
      SparesIp(nb, s, id);
    case EnsurePrimary(vm, _) =>
      SparesPrimaryIp(nb, s, vm);
  }

  /** A step that shares its records with no other step ends met, and stays met. */
  lemma {:induction false} RunMeets(nb: NetBox, steps: seq<Step>, k: nat, s: Step)
    requires k <= |steps| && Ready(nb, s)
    requires forall t :: t in steps && SameCell(t, s) ==> t == s
    ensures Ready(Run(nb, steps[..k]), s)
    ensures s in steps[..k] ==> Met(Run(nb, steps[..k]), s)
  {
    hide Ready, Met, SameCell, Perform, Replay;
    if k > 0 {
      RunMeets(nb, steps, k - 1, s);
      var last := steps[k - 1];
      assert steps[..k][..k - 1] == steps[..k - 1];
      var before := Run(nb, steps[..k - 1]);
      AfterIsSettled(before, last);
      if last == s {
        StepMeets(before, s);
      } else {
        StepSpares(before, last, s);
      }
    }
  }

  ghost predicate SparedInterface(nb: NetBox, after: NetBox, r: nat) {
    (r in after.interfaces <==> r in nb.interfaces) && (r in nb.interfaces ==> after.interfaces[r] == nb.interfaces[r])
  }

  ghost predicate SparedMac(nb: NetBox, after: NetBox, m: nat) {
    (m in after.macs <==> m in nb.macs) && (m in nb.macs ==> after.macs[m] == nb.macs[m])
  }

  ghost predicate SparedIp(nb: NetBox, after: NetBox, i: nat) {
    (i in after.ips <==> i in nb.ips) && (i in nb.ips ==> after.ips[i] == nb.ips[i])
  }

  /** What the phase never touches. */
  ghost predicate Untouched(nb: NetBox, after: NetBox, steps: seq<Step>) {
    && after.vms == nb.vms
    && (forall r :: (forall s :: s in steps && s.EnsureInterface? ==> s.id != r) ==> SparedInterface(nb, after, r))
    && (forall m :: (forall s :: s in steps && s.EnsureMac? ==> s.id != m) ==> SparedMac(nb, after, m))
    && (forall i :: (forall s :: s in steps && s.EnsureIp? ==> s.id != i) ==> SparedIp(nb, after, i))
  }

  lemma {:induction false} RunSpares(nb: NetBox, steps: seq<Step>)
    ensures Untouched(nb, Run(nb, steps), steps)
  {
    if steps != [] {
      var init, last := steps[..|steps| - 1], steps[|steps| - 1];
      RunSpares(nb, init);
      var before := Run(nb, init);
      AfterIsSettled(before, last);
      assert forall s :: s in steps <==> s in init || s == last;
      forall r | forall s :: s in steps && s.EnsureInterface? ==> s.id != r
        ensures SparedInterface(nb, Settled(before, last), r)
      {
        SparesInterface(before, last, r);
        assert SparedInterface(nb, before, r);
      }
      forall m | forall s :: s in steps && s.EnsureMac? ==> s.id != m
        ensures SparedMac(nb, Settled(before, last), m)
      {
        SparesMac(before, last, m);
        assert SparedMac(nb, before, m);
      }
      forall i | forall s :: s in steps && s.EnsureIp? ==> s.id != i
        ensures SparedIp(nb, Settled(before, last), i)
      {
        SparesIp(before, last, i);
        assert SparedIp(nb, before, i);
      }
    }
  }

  // ----------------------------------------------------------- first apply

  lemma InterfaceStepReady(nb: NetBox, ids: Ids, vm: nat, j: Job)
    requires NicPasses(nb, vm, j.c, j.n)
    ensures Ready(nb, InterfaceStep(nb, ids, vm, j))
  {
    hide DesiredFields, MacPasses, IpsPass, Best;
    FindInterfaceFacts(nb, vm, j.c, j.n);
  }

  lemma MacStepReady(nb: NetBox, ids: Ids, vm: nat, j: Job, s: Step)
    requires FreshIds(nb, ids) && NicPasses(nb, vm, j.c, j.n) && s in MacSteps(nb, ids, vm, j)
    ensures Ready(nb, s)
  {
    hide DesiredFields, IpsPass, FindInterface, MacTarget;
    CanonicalTextIsStable(j.n.mac.value);
    MacTargetFacts(nb, ids, s.address);
  }

  lemma IpStepReady(nb: NetBox, ids: Ids, vm: nat, j: Job, s: Step)
    requires FreshIds(nb, ids) && NicPasses(nb, vm, j.c, j.n)
    requires s.EnsureIp? && s.key in Keys(j.n) && s == IpStep(nb, ids, Target(nb, ids, vm, j), s.key)
    ensures Ready(nb, s)
  {
  }

  lemma StepsAreReady(nb: NetBox, ids: Ids, cluster: nat, cs: seq<Container>, s: Step)
    requires Batch(nb, ids, cluster, cs) && s in Steps(nb, ids, cluster, cs)
    ensures Ready(nb, s)
  {
    hide NicPasses, Steps, NicSteps, InterfaceStep, FreshIds, Passes;
    StepOrigin(nb, ids, cluster, cs, s);
    if !s.EnsurePrimary? {
      var j :| FromJob(nb, ids, cluster, cs, s, j);
      var vm := VmFor(nb, cluster, j.c);
      JobStepKinds(nb, ids, vm, j, s);
      if s == InterfaceStep(nb, ids, vm, j) {
        InterfaceStepReady(nb, ids, vm, j);
      } else if s in MacSteps(nb, ids, vm, j) {
        MacStepReady(nb, ids, vm, j, s);
      } else {
        IpStepReady(nb, ids, vm, j, s);
      }
    }
  }

  lemma StepsAreConsistent(nb: NetBox, ids: Ids, cluster: nat, cs: seq<Container>, s: Step, t: Step)
    requires Batch(nb, ids, cluster, cs) && DistinctRecords(nb, cluster, cs)
    requires s.EnsurePrimary? ==> DistinctPrimaries(nb, cluster, cs)
    requires s in Steps(nb, ids, cluster, cs) && t in Steps(nb, ids, cluster, cs) && SameCell(s, t)
    ensures s == t
  {
    hide NicPasses, Steps, NicSteps, InterfaceStep, FreshIds, Target, MacTarget, IpTarget, CanonicalMac, Keys, MacsAt,
         IpsAt, DistinctRecords, InjectiveIdentities, OneSource, Jobs, ContainerPasses;
    StepOrigin(nb, ids, cluster, cs, s);
    StepOrigin(nb, ids, cluster, cs, t);
    if s.EnsurePrimary? {
      var c :| FromContainer(nb, ids, cluster, cs, s, c);
      var d :| FromContainer(nb, ids, cluster, cs, t, d);
      PrimaryStepKind(nb, ids, VmFor(nb, cluster, c), c, s);
      PrimaryStepKind(nb, ids, VmFor(nb, cluster, d), d, t);
    } else {
      var a :| FromJob(nb, ids, cluster, cs, s, a);
      var b :| FromJob(nb, ids, cluster, cs, t, b);
      JobStepKinds(nb, ids, VmFor(nb, cluster, a.c), a, s);
      JobStepKinds(nb, ids, VmFor(nb, cluster, b.c), b, t);
      if s.EnsureInterface? || (s.EnsureMac? && s.interface == t.interface) {
        TargetsDistinct(nb, ids, cluster, cs, a, b);
      } else {
        RecordServesOneJob(nb, ids, cluster, cs, a, b, s, t);
      }
    }
  }

  /** No MAC or IP record is used for two discovered interfaces. */
  lemma RecordServesOneJob(nb: NetBox, ids: Ids, cluster: nat, cs: seq<Container>, a: Job, b: Job, s: Step, t: Step)
    requires Passes(nb, cluster, cs) && FreshIds(nb, ids)
    requires FromJob(nb, ids, cluster, cs, s, a) && FromJob(nb, ids, cluster, cs, t, b)
    requires (s.EnsureMac? && t.EnsureMac? && s.id == t.id) || (s.EnsureIp? && t.EnsureIp? && s.id == t.id)
    ensures a == b && s == t
  {
    hide NicPasses, NicSteps, FreshIds, Target, MacTarget, IpTarget, CanonicalMac, Keys, Jobs, ContainerPasses;
    JobStepKinds(nb, ids, VmFor(nb, cluster, a.c), a, s);
    JobStepKinds(nb, ids, VmFor(nb, cluster, b.c), b, t);
    if s.EnsureMac? {
      MacTargetsDistinct(nb, ids, s.address, t.address);
      MacNamesOneJob(Jobs(cs), a, b);
    } else {
      IpTargetsDistinct(nb, ids, s.key, t.key);
      IpNamesOneJob(Jobs(cs), a, b, s.key);
    }
  }

  ghost function Applied(nb: NetBox, ids: Ids, cluster: nat, cs: seq<Container>): NetBox
    requires Passes(nb, cluster, cs)
  {
    Run(nb, Steps(nb, ids, cluster, cs))
  }

  lemma AppliedMeetsStep(nb: NetBox, ids: Ids, cluster: nat, cs: seq<Container>, s: Step)
    requires Batch(nb, ids, cluster, cs) && DistinctRecords(nb, cluster, cs)
    requires s in Steps(nb, ids, cluster, cs) && (s.EnsurePrimary? ==> DistinctPrimaries(nb, cluster, cs))
    ensures Met(Applied(nb, ids, cluster, cs), s)
  {
    hide Met, Ready, ContainerPasses, FreshIds, InjectiveIdentities, OneSource, DistinctRecords, DistinctPrimaries,
         SameCell, Run, Steps;
    var steps := Steps(nb, ids, cluster, cs);
    StepsAreReady(nb, ids, cluster, cs, s);
    forall t | t in steps && SameCell(t, s)
      ensures t == s
    {
      SameCellSymmetric(s, t);
      StepsAreConsistent(nb, ids, cluster, cs, s, t);
    }
    RunMeets(nb, steps, |steps|, s);
    assert steps[..|steps|] == steps;
  }

  lemma SameCellSymmetric(s: Step, t: Step)
    ensures SameCell(s, t) == SameCell(t, s)
  {
  }

  /** After the first apply every goal of the batch holds and nothing else moved. */
  lemma AppliedMeets(nb: NetBox, ids: Ids, cluster: nat, cs: seq<Container>)
    requires Batch(nb, ids, cluster, cs)
    requires DistinctRecords(nb, cluster, cs) && DistinctPrimaries(nb, cluster, cs)
    ensures forall s :: s in Steps(nb, ids, cluster, cs) ==> Met(Applied(nb, ids, cluster, cs), s)
    ensures Untouched(nb, Applied(nb, ids, cluster, cs), Steps(nb, ids, cluster, cs))
  {
    hide Met, DistinctRecords, DistinctPrimaries, Run, Steps, Untouched, ContainerPasses;
    var steps := Steps(nb, ids, cluster, cs);
    forall s | s in steps
      ensures Met(Applied(nb, ids, cluster, cs), s)
    {
      AppliedMeetsStep(nb, ids, cluster, cs, s);
    }
    RunSpares(nb, steps);
  }
}
