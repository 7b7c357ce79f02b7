/** The memoised correlation index of one read snapshot. */
module EsxiNetworkIndex {
  import opened Wrappers
  import opened Guests
  import opened EsxiRecords

  function Get<K, V>(m: map<K, set<V>>, k: K): set<V> {
    if k in m then m[k] else {}
  }

  function GetPorts(m: map<(Kind, Option<nat>), seq<Port>>, k: (Kind, Option<nat>)): seq<Port> {
    if k in m then m[k] else []
  }

  /** Owner to the canonical values of the records assigned to it. */
  ghost predicate Indexes<R(!new), V(!new)>(records: seq<R>, owner: R -> Assigned, value: R -> Option<V>,
                            m: map<Assigned, set<V>>) {
    forall o, v {:trigger v in Get(m, o)} :: v in Get(m, o) <==>
      exists r :: r in records && owner(r) == o && value(r) == Some(v)
  }

  lemma Snoc<T>(s: seq<T>, i: nat)
    requires i < |s|
    ensures s[..i + 1] == s[..i] + [s[i]]
    ensures forall x :: x in s[..i + 1] <==> x in s[..i] || x == s[i]
  {
  }

  /** `_assigned`. */
  method AssignedValues<R(!new), V(!new, ==)>(records: seq<R>, owner: R -> Assigned, value: R -> Option<V>)
    returns (m: map<Assigned, set<V>>)
    ensures Indexes(records, owner, value, m)
  {
    m := map[];
    for i := 0 to |records|
      invariant Indexes(records[..i], owner, value, m)
    {
      Snoc(records, i);
      var v := value(records[i]);
      if v.Some? {
        var o := owner(records[i]);
        ghost var was := m;
        m := m[o := Get(m, o) + {v.value}];
        forall p, w
          ensures w in Get(m, p) <==> w in Get(was, p) || (p == o && w == v.value)
        {
        }
      }
    }
    assert records[..|records|] == records;
  }

  ghost predicate IndexesPorts(ports: seq<Port>, k: Kind, m: map<(Kind, Option<nat>), seq<Port>>) {
    forall o, p {:trigger p in GetPorts(m, (k, o))} :: p in GetPorts(m, (k, o)) <==> p in ports && p.parent == o
  }

  /** The `interfaces_by_owner` loop of one kind. */
  method IndexPorts(ports: seq<Port>, k: Kind, before: map<(Kind, Option<nat>), seq<Port>>)
    returns (m: map<(Kind, Option<nat>), seq<Port>>)
    requires forall o :: GetPorts(before, (k, o)) == []
    ensures IndexesPorts(ports, k, m)
    ensures forall l, o {:trigger GetPorts(m, (l, o))} :: l != k ==> GetPorts(m, (l, o)) == GetPorts(before, (l, o))
  {
    m := before;
    for i := 0 to |ports|
      invariant IndexesPorts(ports[..i], k, m)
      invariant forall l, o {:trigger GetPorts(m, (l, o))} :: l != k ==> GetPorts(m, (l, o)) == GetPorts(before, (l, o))
    {
      Snoc(ports, i);
      var key := (k, ports[i].parent);
      ghost var was := m;
      m := m[key := GetPorts(m, key) + [ports[i]]];
      forall o, p
        ensures p in GetPorts(m, (k, o)) <==> p in GetPorts(was, (k, o)) || (o == ports[i].parent && p == ports[i])
      {
      }
      forall l, o | l != k
        ensures GetPorts(m, (l, o)) == GetPorts(was, (l, o))
      {
      }
    }
    assert ports[..|ports|] == ports;
  }

  ghost predicate IpsById(ips: seq<IpRecord>, m: map<nat, IpRecord>) {
    && (forall x :: x in m <==> exists r :: r in ips && r.id == x)
    && (forall r :: r in ips ==> m[r.id] == r)
  }

  ghost predicate MacsById(macs: seq<MacRecord>, m: map<nat, MacRecord>) {
    && (forall x :: x in m <==> exists r :: r in macs && r.id == x)
    && (forall r :: r in macs ==> m[r.id] == r)
  }

  /** What the ports seen so far contribute. */
  ghost predicate Collected(s: Snapshot, k: Kind, o: Parent, done: seq<Port>, n: Network) {
    && (forall a :: a in n.ips <==> LinksIp(s, o.primaryIp, a) || exists p :: p in done && PortIp(s, k, p, a))
    && (forall m :: m in n.macs <==> exists p :: p in done && PortMac(s, k, p, m))
  }

  lemma CollectNext(s: Snapshot, k: Kind, o: Parent, ports: seq<Port>, i: nat, n: Network, ips: set<Address>,
                    macs: set<string>)
    requires i < |ports| && Collected(s, k, o, ports[..i], n)
    requires forall a :: a in ips <==> PortIp(s, k, ports[i], a)
    requires forall m :: m in macs <==> PortMac(s, k, ports[i], m)
    ensures Collected(s, k, o, ports[..i + 1], Network(n.ips + ips, n.macs + macs))
  {
    hide PortIp, PortMac, LinksIp;
    assert forall p :: p in ports[..i + 1] <==> p in ports[..i] || p == ports[i];
  }

  lemma CollectedAll(s: Snapshot, k: Kind, o: Parent, ports: seq<Port>, n: Network)
    requires forall p :: p in ports <==> p in Ports(s, k) && p.parent == Some(o.id)
    requires Collected(s, k, o, ports, n)
    ensures IsNetwork(s, k, o, n)
  {
  }

  class NetworkIndex {
    ghost const snapshot: Snapshot
    var ipsById: map<nat, IpRecord>
    var macsById: map<nat, MacRecord>
    var portsByOwner: map<(Kind, Option<nat>), seq<Port>>
    var ipsByPort: map<Assigned, set<Address>>
    var macsByPort: map<Assigned, set<string>>
    var networks: map<(Kind, nat), Network>

    /** The indexes are those of the snapshot. */
    ghost predicate Built()
      reads this`ipsById, this`macsById, this`portsByOwner, this`ipsByPort, this`macsByPort
    {
      && IpsById(snapshot.ips, ipsById)
      && MacsById(snapshot.macs, macsById)
      && IndexesPorts(snapshot.hostPorts, HostKind, portsByOwner)
      && IndexesPorts(snapshot.vmPorts, VmKind, portsByOwner)
      && Indexes(snapshot.ips, (r: IpRecord) => r.owner, (r: IpRecord) => CanonicalIp(r.address), ipsByPort)
      && Indexes(snapshot.macs, (r: MacRecord) => r.owner, (r: MacRecord) => CanonicalEui(r.address), macsByPort)
    }

    /** Every remembered network is the naive scan of its object. */
    ghost predicate Valid()
      reads this
    {
      && Keyed(snapshot)
      && Built()
      && forall k, o :: o in Parents(snapshot, k) && (k, o.id) in networks ==>
        IsNetwork(snapshot, k, o, networks[(k, o.id)])
    }

    constructor (s: Snapshot)
      requires Keyed(s)
      ensures Valid() && snapshot == s
    {
      var ipMap: map<nat, IpRecord> := map[];
      for i := 0 to |s.ips|
        invariant IpsById(s.ips[..i], ipMap)
      {
        Snoc(s.ips, i);
        ipMap := ipMap[s.ips[i].id := s.ips[i]];
      }
      assert s.ips[..|s.ips|] == s.ips;
      var macMap: map<nat, MacRecord> := map[];
      for i := 0 to |s.macs|
        invariant MacsById(s.macs[..i], macMap)
      {
        Snoc(s.macs, i);
        macMap := macMap[s.macs[i].id := s.macs[i]];
      }
      assert s.macs[..|s.macs|] == s.macs;
      var ports := IndexPorts(s.hostPorts, HostKind, map[]);
      ports := IndexPorts(s.vmPorts, VmKind, ports);
      var ipSlots := AssignedValues(s.ips, (r: IpRecord) => r.owner, (r: IpRecord) => CanonicalIp(r.address));
      var macSlots := AssignedValues(s.macs, (r: MacRecord) => r.owner, (r: MacRecord) => CanonicalEui(r.address));
      snapshot := s;
      ipsById, macsById, portsByOwner, ipsByPort, macsByPort := ipMap, macMap, ports, ipSlots, macSlots;
      networks := map[];
    }

    /** `_relationship_value` of a primary address, canonicalised. */
    method PrimaryIp(l: Link<IpText>) returns (ips: set<Address>)
      requires Valid()
      ensures forall a :: a in ips <==> LinksIp(snapshot, l, a)
    {
      hide CanonicalIp;
      ips := {};
      if l.Link? {
        if l.inline.Some? {
          if CanonicalIp(l.inline.value).Some? { ips := {CanonicalIp(l.inline.value).value}; }
        } else if l.id in ipsById {
          if CanonicalIp(ipsById[l.id].address).Some? { ips := {CanonicalIp(ipsById[l.id].address).value}; }
        }
      }
    }

    method PrimaryMac(l: Link<string>) returns (macs: set<string>)
      requires Valid()
      ensures forall m :: m in macs <==> LinksMac(snapshot, l, m)
    {
      hide CanonicalEui;
      macs := {};
      if l.Link? {
        if l.inline.Some? {
          if CanonicalEui(l.inline).Some? { macs := {CanonicalEui(l.inline).value}; }
        } else if l.id in macsById {
          if CanonicalEui(macsById[l.id].address).Some? { macs := {CanonicalEui(macsById[l.id].address).value}; }
        }
      }
    }

    /** `for_object`: remembered or computed, the answer is the naive scan. */
    method ForObject(k: Kind, o: Parent) returns (n: Network)
      requires Valid() && o in Parents(snapshot, k)
      modifies this`networks
      ensures Valid()
      ensures IsNetwork(snapshot, k, o, n)
      ensures networks == old(networks)[(k, o.id) := n]
    {
      hide Keyed, Built, LinksIp, LinksMac, PortIp, PortMac, Collected, IsNetwork;
      if (k, o.id) in networks {
        return networks[(k, o.id)];
      }
      var primary := PrimaryIp(o.primaryIp);
      n := Network(primary, {});
      var ports := GetPorts(portsByOwner, (k, Some(o.id)));
      assert forall p :: p in ports <==> p in Ports(snapshot, k) && p.parent == Some(o.id) by { BuiltPorts(k, o); }
      assert Collected(snapshot, k, o, ports[..0], n) by { CollectedNone(snapshot, k, o, ports, n); }
      for i := 0 to |ports|
        invariant Valid() && networks == old(networks)
        invariant Collected(snapshot, k, o, ports[..i], n)
      {
        var primaryMac := PrimaryMac(ports[i].primaryMac);
        var slot := Assigned(Some(PortType(k)), Some(ports[i].id));
        BuiltSlot(k, ports[i], primaryMac);
        CollectNext(snapshot, k, o, ports, i, n, Get(ipsByPort, slot), primaryMac + Get(macsByPort, slot));
        n := Network(n.ips + Get(ipsByPort, slot), n.macs + (primaryMac + Get(macsByPort, slot)));
      }
      assert ports[..|ports|] == ports;
      CollectedAll(snapshot, k, o, ports, n);
      Remember(k, o, n);
      networks := networks[(k, o.id) := n];
    }

    lemma BuiltPorts(k: Kind, o: Parent)
      requires Built()
      ensures forall p :: p in GetPorts(portsByOwner, (k, Some(o.id))) <==>
              p in Ports(snapshot, k) && p.parent == Some(o.id)
    {
    }

    lemma BuiltSlot(k: Kind, p: Port, primary: set<string>)
      requires Built()
      requires forall m :: m in primary <==> LinksMac(snapshot, p.primaryMac, m)
      ensures var slot := Assigned(Some(PortType(k)), Some(p.id));
        && (forall a :: a in Get(ipsByPort, slot) <==> PortIp(snapshot, k, p, a))
        && (forall m :: m in primary + Get(macsByPort, slot) <==> PortMac(snapshot, k, p, m))
    {
    }

    /** Ids name one object of a kind, so remembering the answer cannot mislead a later query. */
    lemma Remember(k: Kind, o: Parent, n: Network)
      requires Valid() && o in Parents(snapshot, k) && IsNetwork(snapshot, k, o, n)
      ensures forall l, q :: q in Parents(snapshot, l) && (l, q.id) in networks[(k, o.id) := n] ==>
        IsNetwork(snapshot, l, q, networks[(k, o.id) := n][(l, q.id)])
    {
    }
  }

  lemma CollectedNone(s: Snapshot, k: Kind, o: Parent, ports: seq<Port>, n: Network)
    requires forall a :: a in n.ips <==> LinksIp(s, o.primaryIp, a)
    requires n.macs == {}
    ensures Collected(s, k, o, ports[..0], n)
  {
  }

  /** Any sequence of queries on one snapshot is answered by the naive scan, whatever was asked before. */
  method AnswerAll(index: NetworkIndex, queries: seq<(Kind, Parent)>) returns (answers: seq<Network>)
    requires index.Valid() && forall q :: q in queries ==> q.1 in Parents(index.snapshot, q.0)
    modifies index`networks
    ensures index.Valid()
    ensures |answers| == |queries|
    ensures forall i :: 0 <= i < |queries| ==> IsNetwork(index.snapshot, queries[i].0, queries[i].1, answers[i])
  {
    hide IsNetwork;
    answers := [];
    for i := 0 to |queries|
      invariant index.Valid() && |answers| == i
      invariant forall j :: 0 <= j < i ==> IsNetwork(index.snapshot, queries[j].0, queries[j].1, answers[j])
    {
      var n := index.ForObject(queries[i].0, queries[i].1);
      answers := answers + [n];
    }
  }
}
