/**
 The NetBox records an LXC network apply reads and writes, the preflight that
 validates a whole batch, and the write phase as a log of single writes.
 */
module LxcNetworks {
  import opened Wrappers
  import opened Texts
  import opened SourceIdentities
  import opened Guests

  // ---------------------------------------------------------------- records

  datatype Owner = Owner(kind: Option<string>, id: Option<nat>)

  const FREE := Owner(None, None)

  function OfInterface(id: nat): Owner {
    Owner(Some("virtualization.vminterface"), Some(id))
  }

  datatype Vm = Vm(identities: IdentityField, cluster: Option<nat>, primaryOwned: bool)
  datatype Interface = Interface(vm: Option<nat>, name: string, enabled: bool, fields: CustomFields)
  datatype Mac = Mac(address: Option<string>, owner: Owner)
  datatype Ip = Ip(address: IpText, vrf: Option<nat>, owner: Owner)

  /** Records by id. `primaryMac` and `primaryIp` hold the set links only. */
  datatype NetBox = NetBox(
    vms: map<nat, Vm>, interfaces: map<nat, Interface>, macs: map<nat, Mac>, ips: map<nat, Ip>,
    primaryMac: map<nat, nat>, primaryIp: map<nat, nat>)

  /** A VRF-scoped address. */
  datatype IpKey = IpKey(iface: IpInterface, vrf: Option<nat>)

  /** `_canonical_mac`: blank text is no address. */
  function CanonicalMac(m: Option<string>): Option<string> {
    if m.None? || Upper(Strip(m.value)) == "" then None else Some(Upper(Strip(m.value)))
  }

  function MacsAt(nb: NetBox, address: string): set<nat> {
    set m | m in nb.macs && CanonicalMac(nb.macs[m].address) == Some(address)
  }

  function IpsAt(nb: NetBox, key: IpKey): set<nat> {
    set i | i in nb.ips && Canonical(nb.ips[i].address) == Some(key.iface) && nb.ips[i].vrf == key.vrf
  }

  function Rows(nb: NetBox, vm: nat): set<nat> {
    set r | r in nb.interfaces && nb.interfaces[r].vm == Some(vm)
  }

  predicate AtMostOne(s: set<nat>) {
    forall a, b :: a in s && b in s ==> a == b
  }

  // -------------------------------------------------------------- preflight

  datatype Found = Refused | Absent | At(id: nat)

  predicate Ranked(nb: NetBox, vm: nat, c: Container, n: Nic) {
    forall r :: r in Rows(nb, vm) ==> NicRank(nb.interfaces[r].fields.identities, c, n).Some?
  }

  function Rank(nb: NetBox, r: nat, c: Container, n: Nic): nat {
    if r !in nb.interfaces then NO_MATCH
    else match NicRank(nb.interfaces[r].fields.identities, c, n)
      case Some(rank) => rank
      case None => NO_MATCH
  }

  /** Best-ranked rows, duplicates retained. */
  function Best(nb: NetBox, vm: nat, c: Container, n: Nic): set<nat> {
    set r | r in Rows(nb, vm) && Rank(nb, r, c, n) != NO_MATCH
            && forall q :: q in Rows(nb, vm) ==> Rank(nb, q, c, n) <= Rank(nb, r, c, n)
  }

  function Display(c: Container, n: Nic): string {
    DisplayName(c.nics, n)
  }

  predicate NameTaken(nb: NetBox, vm: nat, c: Container, n: Nic) {
    exists r :: r in Rows(nb, vm) &&
      (Fold(nb.interfaces[r].name) == Fold(n.name) || Fold(nb.interfaces[r].name) == Fold(Display(c, n)))
  }

  /** `_find_interface`. */
  ghost function FindInterface(nb: NetBox, vm: nat, c: Container, n: Nic): Found {
    if !Ranked(nb, vm, c, n) || !AtMostOne(Best(nb, vm, c, n)) then Refused
    else if Best(nb, vm, c, n) != {} then
      var r :| r in Best(nb, vm, c, n); At(r)
    else if NameTaken(nb, vm, c, n) then Refused
    else Absent
  }

  predicate VmRanked(nb: NetBox, c: Container) {
    forall v :: v in nb.vms ==> MatchRank(nb.vms[v].identities, LxcIdentity(c), c.legacyId, c.legacyOwner).Some?
  }

  function VmRank(nb: NetBox, v: nat, c: Container): nat
    requires v in nb.vms
  {
    match MatchRank(nb.vms[v].identities, LxcIdentity(c), c.legacyId, c.legacyOwner)
    case Some(rank) => rank
    case None => NO_MATCH
  }

  function VmMatches(nb: NetBox, c: Container): set<nat> {
    set v | v in nb.vms && VmRank(nb, v, c) != NO_MATCH
            && forall q :: q in nb.vms ==> VmRank(nb, q, c) <= VmRank(nb, v, c)
  }

  /** `_find_lxc_vm` and the cluster check. */
  ghost function FindVm(nb: NetBox, cluster: nat, c: Container): Option<nat> {
    if VmRanked(nb, c) && AtMostOne(VmMatches(nb, c)) && VmMatches(nb, c) != {} then
      var v :| v in VmMatches(nb, c);
      if nb.vms[v].cluster == Some(cluster) then Some(v) else None
    else None
  }

  /** `validate_interface_names` together with the discovered-name check. */
  ghost predicate NamesPass(nb: NetBox, vm: nat, c: Container) {
    && (forall i, j :: 0 <= i < j < |c.nics| ==> Fold(Display(c, c.nics[i])) != Fold(Display(c, c.nics[j])))
    && (forall n, r :: n in c.nics && r in Rows(nb, vm) && Fold(nb.interfaces[r].name) == Fold(Display(c, n))
          ==> FindInterface(nb, vm, c, n) == At(r))
  }

  function FieldsOf(nb: NetBox, f: Found): CustomFields {
    if f.At? && f.id in nb.interfaces then nb.interfaces[f.id].fields else EMPTY_FIELDS
  }

  predicate Allowed(o: Owner, f: Found) {
    o == FREE || (f.At? && o == OfInterface(f.id))
  }

  /** `_check_lxc_mac`. */
  predicate MacPasses(nb: NetBox, f: Found, n: Nic) {
    CanonicalMac(n.mac).Some? ==>
      var ms := MacsAt(nb, CanonicalMac(n.mac).value);
      && AtMostOne(ms)
      && (forall m :: m in ms ==> Allowed(nb.macs[m].owner, f))
      && (f.At? && f.id in nb.primaryMac ==> nb.primaryMac[f.id] in ms)
  }

  predicate Usable(t: IpText) {
    t.Spelled? && !Reserved(t.iface)
  }

  /** Scoped keys of the usable addresses, in discovery order. */
  function IpKeys(n: Nic, ips: seq<IpText>): (keys: seq<IpKey>)
    ensures forall k :: k in keys ==> k.vrf == n.vrf
  {
    if ips == [] then []
    else (if Usable(ips[0]) then [IpKey(ips[0].iface, n.vrf)] else []) + IpKeys(n, ips[1..])
  }

  function Keys(n: Nic): seq<IpKey> {
    IpKeys(n, n.ips)
  }

  /** `_check_lxc_ips`. */
  predicate IpsPass(nb: NetBox, f: Found, n: Nic) {
    forall k :: k in Keys(n) ==>
      AtMostOne(IpsAt(nb, k)) && forall i :: i in IpsAt(nb, k) ==> Allowed(nb.ips[i].owner, f)
  }

  ghost predicate NicPasses(nb: NetBox, vm: nat, c: Container, n: Nic) {
    var f := FindInterface(nb, vm, c, n);
    && f != Refused
    && DesiredFields(c, n, FieldsOf(nb, f)).Some?
    && MacPasses(nb, f, n)
    && IpsPass(nb, f, n)
  }

  ghost predicate ContainerPasses(nb: NetBox, cluster: nat, c: Container) {
    var v := FindVm(nb, cluster, c);
    && v.Some?
    && NamesPass(nb, v.value, c)
    && (forall n :: n in c.nics ==> NicPasses(nb, v.value, c, n))
  }

  /** One discovered interface together with its container. */
  datatype Job = Job(c: Container, n: Nic)

  function NicJobs(c: Container, nics: seq<Nic>): (jobs: seq<Job>)
    ensures forall j :: j in jobs <==> j.c == c && j.n in nics
  {
    if nics == [] then [] else [Job(c, nics[0])] + NicJobs(c, nics[1..])
  }

  function Jobs(cs: seq<Container>): (jobs: seq<Job>)
    ensures forall j :: j in jobs <==> j.c in cs && j.n in j.c.nics
  {
    if cs == [] then [] else NicJobs(cs[0], cs[0].nics) + Jobs(cs[1..])
  }

  /** Every discovered MAC, with repetitions. */
  function Discovered(jobs: seq<Job>): seq<string> {
    if jobs == [] then []
    else (if CanonicalMac(jobs[0].n.mac).Some? then [CanonicalMac(jobs[0].n.mac).value] else []) + Discovered(jobs[1..])
  }

  function DiscoveredIps(jobs: seq<Job>): seq<IpKey> {
    if jobs == [] then [] else Keys(jobs[0].n) + DiscoveredIps(jobs[1..])
  }

  predicate NoRepeats<T(==)>(s: seq<T>) {
    forall i, j :: 0 <= i < j < |s| ==> s[i] != s[j]
  }

  /** `prepare_lxc_network_contexts` accepts the batch. */
  ghost predicate Passes(nb: NetBox, cluster: nat, cs: seq<Container>) {
    && (forall c :: c in cs ==> ContainerPasses(nb, cluster, c))
    && NoRepeats(Discovered(Jobs(cs)))
    && NoRepeats(DiscoveredIps(Jobs(cs)))
  }

  // ------------------------------------------------------------------ steps

  /** The id NetBox will assign to the record created for an identity or address. */
  datatype Ids = Ids(interface: SourceIdentity -> nat, mac: string -> nat, ip: IpKey -> nat)

  ghost predicate FreshIds(nb: NetBox, ids: Ids) {
    && (forall x :: ids.interface(x) !in nb.interfaces && ids.interface(x) !in nb.primaryMac)
    && (forall x :: ids.mac(x) !in nb.macs)
    && (forall x :: ids.ip(x) !in nb.ips)
    && (forall x, y :: ids.interface(x) == ids.interface(y) ==> x == y)
    && (forall x, y :: ids.mac(x) == ids.mac(y) ==> x == y)
    && (forall x, y :: ids.ip(x) == ids.ip(y) ==> x == y)
  }

  datatype Changes = Changes(name: Option<string>, enable: bool, fields: Option<CustomFields>)

  const NO_CHANGES := Changes(None, false, None)

  /** What the write phase must bring about, one record at a time. */
  datatype Step =
    | EnsureInterface(id: nat, create: bool, vm: nat, name: string, fields: CustomFields, changes: Changes)
    | EnsureMac(id: nat, create: bool, address: string, interface: nat)
    | EnsureIp(id: nat, create: bool, key: IpKey, interface: nat)
    | EnsurePrimary(vm: nat, ip: nat)

  ghost function Target(nb: NetBox, ids: Ids, vm: nat, j: Job): nat {
    var f := FindInterface(nb, vm, j.c, j.n);
    if f.At? then f.id else ids.interface(NicIdentity(j.c, j.n))
  }

  /** `_interface_changes`. */
  function ChangesFor(row: Interface, name: string, fields: CustomFields): Changes {
    Changes(if row.name != name then Some(name) else None,
            !row.enabled,
            if row.fields != fields then Some(fields) else None)
  }

  ghost function InterfaceStep(nb: NetBox, ids: Ids, vm: nat, j: Job): Step
    requires NicPasses(nb, vm, j.c, j.n)
  {
    var f := FindInterface(nb, vm, j.c, j.n);
    var d := DesiredFields(j.c, j.n, FieldsOf(nb, f)).value;
    EnsureInterface(Target(nb, ids, vm, j), f.Absent?, vm, Display(j.c, j.n), d,
                    if f.At? && f.id in nb.interfaces
                    then ChangesFor(nb.interfaces[f.id], Display(j.c, j.n), d) else NO_CHANGES)
  }

  ghost function MacTarget(nb: NetBox, ids: Ids, address: string): nat {
    if MacsAt(nb, address) == {} then ids.mac(address)
    else var m :| m in MacsAt(nb, address); m
  }

  ghost function IpTarget(nb: NetBox, ids: Ids, key: IpKey): nat {
    if IpsAt(nb, key) == {} then ids.ip(key)
    else var i :| i in IpsAt(nb, key); i
  }

  ghost function MacSteps(nb: NetBox, ids: Ids, vm: nat, j: Job): seq<Step> {
    match CanonicalMac(j.n.mac)
    case None => []
    case Some(a) => [EnsureMac(MacTarget(nb, ids, a), MacsAt(nb, a) == {}, a, Target(nb, ids, vm, j))]
  }

  ghost function IpStep(nb: NetBox, ids: Ids, target: nat, key: IpKey): Step {
    EnsureIp(IpTarget(nb, ids, key), IpsAt(nb, key) == {}, key, target)
  }

  ghost function IpSteps(nb: NetBox, ids: Ids, target: nat, keys: seq<IpKey>): seq<Step> {
    if keys == [] then [] else [IpStep(nb, ids, target, keys[0])] + IpSteps(nb, ids, target, keys[1..])
  }

  lemma {:induction false} IpStepsMember(nb: NetBox, ids: Ids, target: nat, keys: seq<IpKey>, s: Step)
    ensures s in IpSteps(nb, ids, target, keys) <==>
            s.EnsureIp? && s.key in keys && s == IpStep(nb, ids, target, s.key)
  {
    if keys != [] {
      IpStepsMember(nb, ids, target, keys[1..], s);
    }
  }

  ghost function NicSteps(nb: NetBox, ids: Ids, vm: nat, j: Job): seq<Step>
    requires NicPasses(nb, vm, j.c, j.n)
  {
    [InterfaceStep(nb, ids, vm, j)] + MacSteps(nb, ids, vm, j)
    + IpSteps(nb, ids, Target(nb, ids, vm, j), Keys(j.n))
  }

  /** IPv4 keys of the whole container. */
  function Ipv4(nics: seq<Nic>): (keys: set<IpKey>)
    ensures forall k :: k in keys <==> k.iface.v4 && exists n :: n in nics && k in Keys(n)
  {
    if nics == [] then {}
    else
      assert forall n :: n in nics <==> n == nics[0] || n in nics[1..];
      (set k | k in Keys(nics[0]) && k.iface.v4) + Ipv4(nics[1..])
  }

  /** The sole IPv4 candidate, unless the provider owns the primary address. */
  ghost function Candidate(nb: NetBox, vm: nat, c: Container): Option<IpKey> {
    if vm in nb.vms && nb.vms[vm].primaryOwned then None
    else if exists k :: Ipv4(c.nics) == {k} then
      var k :| Ipv4(c.nics) == {k}; Some(k)
    else None
  }

  ghost function PrimarySteps(nb: NetBox, ids: Ids, vm: nat, c: Container): seq<Step> {
    match Candidate(nb, vm, c)
    case None => []
    case Some(k) => [EnsurePrimary(vm, IpTarget(nb, ids, k))]
  }

  ghost function NicsSteps(nb: NetBox, ids: Ids, vm: nat, c: Container, nics: seq<Nic>): seq<Step>
    requires forall n :: n in nics ==> NicPasses(nb, vm, c, n)
  {
    if nics == [] then []
    else NicSteps(nb, ids, vm, Job(c, nics[0])) + NicsSteps(nb, ids, vm, c, nics[1..])
  }

  lemma {:induction false} NicsStepsMember(nb: NetBox, ids: Ids, vm: nat, c: Container, nics: seq<Nic>, s: Step)
    requires forall n :: n in nics ==> NicPasses(nb, vm, c, n)
    ensures s in NicsSteps(nb, ids, vm, c, nics) <==>
            exists n :: n in nics && s in NicSteps(nb, ids, vm, Job(c, n))
  {
    hide NicPasses, NicSteps;
    if nics != [] {
      NicsStepsMember(nb, ids, vm, c, nics[1..], s);
      assert forall n :: n in nics <==> n == nics[0] || n in nics[1..];
    }
  }

  ghost function ContainerSteps(nb: NetBox, ids: Ids, cluster: nat, c: Container): seq<Step>
    requires ContainerPasses(nb, cluster, c)
  {
    var vm := FindVm(nb, cluster, c).value;
    NicsSteps(nb, ids, vm, c, c.nics) + PrimarySteps(nb, ids, vm, c)
  }

  /** The whole batch, in write order. */
  ghost function Steps(nb: NetBox, ids: Ids, cluster: nat, cs: seq<Container>): seq<Step>
    requires forall c :: c in cs ==> ContainerPasses(nb, cluster, c)
  {
    if cs == [] then []
    else ContainerSteps(nb, ids, cluster, cs[0]) + Steps(nb, ids, cluster, cs[1..])
  }

  lemma {:induction false} StepsMember(nb: NetBox, ids: Ids, cluster: nat, cs: seq<Container>, s: Step)
    requires forall c :: c in cs ==> ContainerPasses(nb, cluster, c)
    ensures s in Steps(nb, ids, cluster, cs) <==>
            exists c :: c in cs && s in ContainerSteps(nb, ids, cluster, c)
  {
    hide ContainerPasses, ContainerSteps;
    if cs != [] {
      StepsMember(nb, ids, cluster, cs[1..], s);
      assert forall c :: c in cs <==> c == cs[0] || c in cs[1..];
    }
  }

  // ----------------------------------------------------------------- writes

  datatype Write =
    | CreateInterface(id: nat, vm: nat, name: string, fields: CustomFields)
    | UpdateInterface(id: nat, changes: Changes)
    | CreateMac(id: nat, address: string, interface: nat)
    | AssignMac(id: nat, interface: nat)
    | SetPrimaryMac(interface: nat, mac: nat)
    | CreateIp(id: nat, key: IpKey, interface: nat)
    | AssignIp(id: nat, interface: nat)
    | SetPrimaryIp(vm: nat, ip: nat)

  function Changed(row: Interface, ch: Changes): Interface {
    Interface(row.vm,
              if ch.name.Some? then ch.name.value else row.name,
              row.enabled || ch.enable,
              if ch.fields.Some? then ch.fields.value else row.fields)
  }

  /** NetBox after one accepted write. */
  function Apply(nb: NetBox, w: Write): NetBox {
    match w
    case CreateInterface(id, vm, name, fields) =>
      nb.(interfaces := nb.interfaces[id := Interface(Some(vm), name, true, fields)])
    case UpdateInterface(id, ch) =>
      if id in nb.interfaces then nb.(interfaces := nb.interfaces[id := Changed(nb.interfaces[id], ch)]) else nb
    case CreateMac(id, address, interface) =>
      nb.(macs := nb.macs[id := Mac(Some(address), OfInterface(interface))])
    case AssignMac(id, interface) =>
      if id in nb.macs then nb.(macs := nb.macs[id := nb.macs[id].(owner := OfInterface(interface))]) else nb
    case SetPrimaryMac(interface, mac) => nb.(primaryMac := nb.primaryMac[interface := mac])
    case CreateIp(id, key, interface) =>
      nb.(ips := nb.ips[id := Ip(Spelled(key.iface, 0), key.vrf, OfInterface(interface))])
    case AssignIp(id, interface) =>
      if id in nb.ips then nb.(ips := nb.ips[id := nb.ips[id].(owner := OfInterface(interface))]) else nb
    case SetPrimaryIp(vm, ip) => nb.(primaryIp := nb.primaryIp[vm := ip])
  }

  function Replay(nb: NetBox, log: seq<Write>): NetBox {
    if log == [] then nb else Apply(Replay(nb, log[..|log| - 1]), log[|log| - 1])
  }

  /** The writes one step performs on the records as they stand. */
  function Perform(nb: NetBox, s: Step): seq<Write> {
    match s
    case EnsureInterface(id, create, vm, name, fields, changes) =>
      if create then [CreateInterface(id, vm, name, fields)]
      else if changes != NO_CHANGES then [UpdateInterface(id, changes)]
      else []
    case EnsureMac(id, create, address, interface) =>
      (if create then [CreateMac(id, address, interface)]
       else if id in nb.macs && nb.macs[id].owner == FREE then [AssignMac(id, interface)]
       else [])
      + (if interface in nb.primaryMac && nb.primaryMac[interface] == id then [] else [SetPrimaryMac(interface, id)])
    case EnsureIp(id, create, key, interface) =>
      if create then [CreateIp(id, key, interface)]
      else if id in nb.ips && nb.ips[id].owner == FREE then [AssignIp(id, interface)]
      else []
    case EnsurePrimary(vm, ip) =>
      if vm in nb.primaryIp && nb.primaryIp[vm] == ip then [] else [SetPrimaryIp(vm, ip)]
  }

  function After(nb: NetBox, s: Step): NetBox {
    Replay(nb, Perform(nb, s))
  }

  function Run(nb: NetBox, steps: seq<Step>): NetBox {
    if steps == [] then nb else After(Run(nb, steps[..|steps| - 1]), steps[|steps| - 1])
  }

  /** Every single write of the phase, in order. */
  function Log(nb: NetBox, steps: seq<Step>): seq<Write> {
    if steps == [] then []
    else Log(nb, steps[..|steps| - 1]) + Perform(Run(nb, steps[..|steps| - 1]), steps[|steps| - 1])
  }

  lemma {:induction false} ReplayConcat(nb: NetBox, a: seq<Write>, b: seq<Write>)
    ensures Replay(nb, a + b) == Replay(Replay(nb, a), b)
  {
    if b == [] {
      assert a + b == a;
    } else {
      ReplayConcat(nb, a, b[..|b| - 1]);
      assert (a + b)[..|a + b| - 1] == a + b[..|b| - 1];
    }
  }

  /** Replaying the log gives the state the steps reach. */
  lemma {:induction false} LogReplays(nb: NetBox, steps: seq<Step>)
    ensures Replay(nb, Log(nb, steps)) == Run(nb, steps)
  {
    if steps != [] {
      var init := steps[..|steps| - 1];
      LogReplays(nb, init);
      ReplayConcat(nb, Log(nb, init), Perform(Run(nb, init), steps[|steps| - 1]));
    }
  }

  lemma {:induction false} RunConcat(nb: NetBox, a: seq<Step>, b: seq<Step>)
    ensures Run(nb, a + b) == Run(Run(nb, a), b)
  {
    if b == [] {
      assert a + b == a;
    } else {
      var init, last := b[..|b| - 1], b[|b| - 1];
      RunConcat(nb, a, init);
      assert (a + b)[..|a + b| - 1] == a + init && (a + b)[|a + b| - 1] == last;
    }
  }

  lemma LogLast(nb: NetBox, steps: seq<Step>, init: seq<Step>, last: Step)
    requires steps == init + [last]
    ensures Log(nb, steps) == Log(nb, init) + Perform(Run(nb, init), last)
  {
  }

  lemma Regroup<T>(a: seq<T>, b: seq<T>, c: seq<T>)
    ensures (a + b) + c == a + (b + c)
  {
  }

  lemma {:induction false} LogConcat(nb: NetBox, a: seq<Step>, b: seq<Step>)
    ensures Log(nb, a + b) == Log(nb, a) + Log(Run(nb, a), b)
  {
    if b == [] {
      assert a + b == a;
    } else {
      var init, last := b[..|b| - 1], b[|b| - 1];
      assert b == init + [last];
      assert a + b == (a + init) + [last];
      LogConcat(nb, a, init);
      RunConcat(nb, a, init);
      LogLast(nb, a + b, a + init, last);
      LogLast(Run(nb, a), b, init, last);
      Regroup(Log(nb, a), Log(Run(nb, a), init), Perform(Run(Run(nb, a), init), last));
    }
  }
}
