/** Discovered ESXi objects, one NetBox read snapshot, and the naive correlation of its addresses. */
module EsxiRecords {
  import opened Wrappers
  import opened Texts
  import opened SourceIdentities
  import opened Guests

  datatype Kind = HostKind | VmKind

  /** A host address without its prefix. */
  datatype Address = Address(v4: bool, value: nat)

  /** `_canonical_ip`: unparsable and reserved addresses are dropped. */
  function CanonicalIp(t: IpText): Option<Address> {
    if t.Spelled? && !Reserved(t.iface) then Some(Address(t.iface.v4, t.iface.address)) else None
  }

  predicate Hex(c: char) {
    '0' <= c <= '9' || 'A' <= c <= 'F' || 'a' <= c <= 'f'
  }

  function HexDigits(s: string): string {
    if s == "" then "" else (if Hex(s[0]) then [s[0]] else "") + HexDigits(s[1..])
  }

  /** `_canonical_mac`: twelve hexadecimal digits in upper case, whatever the separators. */
  function CanonicalEui(m: Option<string>): Option<string> {
    if m.None? || |HexDigits(m.value)| != 12 then None else Some(Upper(HexDigits(m.value)))
  }

  /** An address is compared exactly when it is parsed and not reserved, and without its prefix length. */
  lemma CanonicalIpIs(t: IpText, a: Address)
    ensures CanonicalIp(t) == Some(a) <==>
            t.Spelled? && !Reserved(t.iface) && t.iface.v4 == a.v4 && t.iface.address == a.value
  {
    hide Reserved;
  }

  lemma HexIs(c: char)
    ensures Hex(c) <==> c in "0123456789abcdefABCDEF"
  {
  }

  lemma HexDigitsOne(c: char)
    ensures HexDigits([c]) == if Hex(c) then [c] else ""
  {
    hide Hex;
    assert [c][1..] == "";
  }

  /** Separators do not matter: only the hexadecimal digits of both parts remain, in order. */
  lemma {:induction false} HexDigitsJoin(a: string, b: string)
    ensures HexDigits(a + b) == HexDigits(a) + HexDigits(b)
  {
    hide Hex;
    if a == "" {
      assert a + b == b;
    } else {
      var first := if Hex(a[0]) then [a[0]] else "";
      calc {
        HexDigits(a + b);
        { assert (a + b)[1..] == a[1..] + b && (a + b)[0] == a[0]; }
        first + HexDigits(a[1..] + b);
        { HexDigitsJoin(a[1..], b); }
        first + (HexDigits(a[1..]) + HexDigits(b));
        HexDigits(a) + HexDigits(b);
      }
    }
  }

  /** A MAC is twelve hexadecimal digits, whatever else is written between them, compared in upper case. */
  lemma CanonicalEuiIs(m: Option<string>, x: string)
    ensures CanonicalEui(m) == Some(x) <==>
            m.Some? && |HexDigits(m.value)| == 12 && x == Upper(HexDigits(m.value))
  {
  }

  // --------------------------------------------------------------- snapshot

  /** A relation to an address record: absent, or an id that may carry the value inline. */
  datatype Link<T> = NoLink | Link(id: nat, inline: Option<T>)

  /** A device or virtual machine. */
  datatype Parent = Parent(
    id: nat, name: string, identities: IdentityField, site: Option<nat>, cluster: Option<nat>,
    provider: bool, primaryIp: Link<IpText>)

  datatype Port = Port(id: nat, parent: Option<nat>, name: string, identities: IdentityField, primaryMac: Link<string>)

  datatype Assigned = Assigned(kind: Option<string>, id: Option<nat>)

  datatype IpRecord = IpRecord(id: nat, address: IpText, owner: Assigned)
  datatype MacRecord = MacRecord(id: nat, address: Option<string>, owner: Assigned)

  datatype Snapshot = Snapshot(
    devices: seq<Parent>, vms: seq<Parent>, hostPorts: seq<Port>, vmPorts: seq<Port>,
    ips: seq<IpRecord>, macs: seq<MacRecord>)

  function Parents(s: Snapshot, k: Kind): seq<Parent> {
    if k.HostKind? then s.devices else s.vms
  }

  function Ports(s: Snapshot, k: Kind): seq<Port> {
    if k.HostKind? then s.hostPorts else s.vmPorts
  }

  function PortType(k: Kind): string {
    if k.HostKind? then "dcim.interface" else "virtualization.vminterface"
  }

  predicate UniqueIds(rs: seq<Parent>) {
    forall i, j :: 0 <= i < j < |rs| ==> rs[i].id != rs[j].id
  }

  predicate UniquePorts(ps: seq<Port>) {
    forall i, j :: 0 <= i < j < |ps| ==> ps[i].id != ps[j].id
  }

  /** Each collection is keyed by its primary key. */
  predicate Keyed(s: Snapshot) {
    && UniqueIds(s.devices) && UniqueIds(s.vms)
    && UniquePorts(s.hostPorts) && UniquePorts(s.vmPorts)
    && (forall i, j :: 0 <= i < j < |s.ips| ==> s.ips[i].id != s.ips[j].id)
    && (forall i, j :: 0 <= i < j < |s.macs| ==> s.macs[i].id != s.macs[j].id)
  }

  // ------------------------------------------------------------- naive join

  datatype Network = Network(ips: set<Address>, macs: set<string>)

  /** The address a link resolves to: its inline value, else that of the record it names. */
  ghost predicate LinksIp(s: Snapshot, l: Link<IpText>, a: Address) {
    l.Link? &&
    if l.inline.Some? then CanonicalIp(l.inline.value) == Some(a)
    else exists r :: r in s.ips && r.id == l.id && CanonicalIp(r.address) == Some(a)
  }

  ghost predicate LinksMac(s: Snapshot, l: Link<string>, m: string) {
    l.Link? &&
    if l.inline.Some? then CanonicalEui(l.inline) == Some(m)
    else exists r :: r in s.macs && r.id == l.id && CanonicalEui(r.address) == Some(m)
  }

  ghost predicate Owns(k: Kind, owner: Assigned, p: Port) {
    owner == Assigned(Some(PortType(k)), Some(p.id))
  }

  ghost predicate PortIp(s: Snapshot, k: Kind, p: Port, a: Address) {
    exists r :: r in s.ips && Owns(k, r.owner, p) && CanonicalIp(r.address) == Some(a)
  }

  ghost predicate PortMac(s: Snapshot, k: Kind, p: Port, m: string) {
    || LinksMac(s, p.primaryMac, m)
    || exists r :: r in s.macs && Owns(k, r.owner, p) && CanonicalEui(r.address) == Some(m)
  }

  /** An address is the object's when its primary link or some assignment to one of its ports says so. */
  ghost predicate HasIp(s: Snapshot, k: Kind, o: Parent, a: Address) {
    || LinksIp(s, o.primaryIp, a)
    || exists p :: p in Ports(s, k) && p.parent == Some(o.id) && PortIp(s, k, p, a)
  }

  ghost predicate HasMac(s: Snapshot, k: Kind, o: Parent, m: string) {
    exists p :: p in Ports(s, k) && p.parent == Some(o.id) && PortMac(s, k, p, m)
  }

  /** The network of one object, by a scan over all ports and assignments. */
  ghost predicate IsNetwork(s: Snapshot, k: Kind, o: Parent, n: Network) {
    && (forall a :: a in n.ips <==> HasIp(s, k, o, a))
    && (forall m :: m in n.macs <==> HasMac(s, k, o, m))
  }

  lemma NetworkIsUnique(s: Snapshot, k: Kind, o: Parent, m: Network, n: Network)
    requires IsNetwork(s, k, o, m) && IsNetwork(s, k, o, n)
    ensures m == n
  {
  }

  /** Every address the snapshot mentions for the object. */
  ghost function Mentioned(s: Snapshot, o: Parent): set<Address> {
    (set r | r in s.ips && CanonicalIp(r.address).Some? :: CanonicalIp(r.address).value)
    + (if o.primaryIp.Link? && o.primaryIp.inline.Some? then CanonicalIps([o.primaryIp.inline.value]) else {})
  }

  ghost function MentionedMacs(s: Snapshot, k: Kind): set<string> {
    (set r | r in s.macs && CanonicalEui(r.address).Some? :: CanonicalEui(r.address).value)
    + (set p | p in Ports(s, k) && p.primaryMac.Link?
      && CanonicalEui(p.primaryMac.inline).Some? :: CanonicalEui(p.primaryMac.inline).value)
  }

  ghost function NetworkOf(s: Snapshot, k: Kind, o: Parent): Network {
    Network(set a | a in Mentioned(s, o) && HasIp(s, k, o, a), set m | m in MentionedMacs(s, k) && HasMac(s, k, o, m))
  }

  /** The naive scan exists for every object. */
  lemma NetworkOfIsNetwork(s: Snapshot, k: Kind, o: Parent)
    ensures IsNetwork(s, k, o, NetworkOf(s, k, o))
  {
  }

  // ------------------------------------------------------------- discovered

  datatype LivePort = LivePort(name: string, externalId: Option<string>, ips: seq<IpText>, mac: Option<string>,
      management: bool)

  /** What the provider's hardware evidence says about a host. */
  datatype Hardware = NoMatch | HardwareRefused | HardwareOf(device: nat)

  datatype Guest = Guest(name: string, externalId: string, legacyId: string, legacyOwner: bool, ports: seq<LivePort>)

  datatype Host = Host(name: string, sourceId: string, managementIp: Option<IpText>, hardware: Hardware,
      ports: seq<LivePort>, vms: seq<Guest>)

  /** One discovered object, in the order the plans visit them. */
  datatype Live = LiveHost(host: Host) | LiveVm(vm: Guest)

  function KindOf(l: Live): Kind {
    if l.LiveHost? then HostKind else VmKind
  }

  function IdentityOf(inst: string, l: Live): SourceIdentity {
    match l
    case LiveHost(h) => SourceIdentity("esxi", inst, "host", h.sourceId)
    case LiveVm(v) => SourceIdentity("esxi", inst, "vm", v.externalId)
  }

  function NameOf(l: Live): string {
    if l.LiveHost? then l.host.name else l.vm.name
  }

  function GuestVisits(vms: seq<Guest>): seq<Live> {
    seq(|vms|, i requires 0 <= i < |vms| => LiveVm(vms[i]))
  }

  /** Each host followed by its virtual machines. */
  function Visits(hosts: seq<Host>): seq<Live> {
    if hosts == [] then []
      else Visits(hosts[..|hosts| - 1]) + [LiveHost(hosts[|hosts| - 1])] + GuestVisits(hosts[|hosts| - 1].vms)
  }

  function CanonicalIps(ts: seq<IpText>): set<Address> {
    set t | t in ts && CanonicalIp(t).Some? :: CanonicalIp(t).value
  }

  function PortIps(ps: seq<LivePort>): set<Address> {
    set p, t | p in ps && t in p.ips && CanonicalIp(t).Some? :: CanonicalIp(t).value
  }

  function PortMacs(ps: seq<LivePort>): set<string> {
    set p | p in ps && CanonicalEui(p.mac).Some? :: CanonicalEui(p.mac).value
  }

  /** `_discovered_network`: hosts offer addresses only. */
  function LiveNetwork(l: Live): Network {
    match l
    case LiveHost(h) =>
      Network(PortIps(h.ports) + (if h.managementIp.Some? then CanonicalIps([h.managementIp.value]) else {}), {})
    case LiveVm(v) => Network(PortIps(v.ports), PortMacs(v.ports))
  }
}
