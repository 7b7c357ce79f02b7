/** The LXC network inventory: indexes filled by loops over the record lists. */
module LxcInventory {
  import opened LxcNetworks

  /** Record ids in the order NetBox lists them. */
  datatype Listing = Listing(vms: seq<nat>, interfaces: seq<nat>, macs: seq<nat>, ips: seq<nat>)

  ghost predicate Enumerates(s: seq<nat>, all: set<nat>) {
    NoRepeats(s) && forall x :: x in s <==> x in all
  }

  ghost predicate Lists(nb: NetBox, l: Listing) {
    && Enumerates(l.vms, nb.vms.Keys)
    && Enumerates(l.interfaces, nb.interfaces.Keys)
    && Enumerates(l.macs, nb.macs.Keys)
    && Enumerates(l.ips, nb.ips.Keys)
  }

  /** Original record ids with ordered duplicates. */
  datatype Inventory = Inventory(
    vms: seq<nat>, interfacesByVm: map<nat, seq<nat>>, macsByAddress: map<string, seq<nat>>,
      ipsByAddress: map<IpKey, seq<nat>>)

  function Get<K>(index: map<K, seq<nat>>, key: K): seq<nat> {
    if key in index then index[key] else []
  }

  /** The index agrees with a scan of all records, key by key. */
  ghost predicate Indexes(nb: NetBox, inv: Inventory) {
    && Enumerates(inv.vms, nb.vms.Keys)
    && (forall v: nat :: Enumerates(Get(inv.interfacesByVm, v), Rows(nb, v)))
    && (forall a :: Enumerates(Get(inv.macsByAddress, a), MacsAt(nb, a)))
    && (forall k :: Enumerates(Get(inv.ipsByAddress, k), IpsAt(nb, k)))
  }

  /** Each bucket holds, once each, the processed records whose key it is. */
  ghost predicate Bucketed<K(!new)>(index: map<K, seq<nat>>, keys: map<nat, K>, done: seq<nat>) {
    forall k {:trigger Get(index, k)} :: NoRepeats(Get(index, k))
      && forall x: nat :: x in Get(index, k) <==> x in done && x in keys && keys[x] == k
  }

  lemma Append(s: seq<nat>, x: nat)
    requires NoRepeats(s) && x !in s
    ensures NoRepeats(s + [x])
  {
  }

  lemma BucketSkip<K(!new)>(index: map<K, seq<nat>>, keys: map<nat, K>, done: seq<nat>, x: nat)
    requires Bucketed(index, keys, done) && x !in keys
    ensures Bucketed(index, keys, done + [x])
  {
  }

  lemma BucketAppend<K(!new)>(index: map<K, seq<nat>>, keys: map<nat, K>, done: seq<nat>, x: nat)
    requires Bucketed(index, keys, done) && x in keys && x !in done
    ensures Bucketed(index[keys[x] := Get(index, keys[x]) + [x]], keys, done + [x])
  {
    var grown := index[keys[x] := Get(index, keys[x]) + [x]];
    Append(Get(index, keys[x]), x);
    forall k
      ensures NoRepeats(Get(grown, k))
      ensures forall y: nat :: y in Get(grown, k) <==> y in done + [x] && y in keys && keys[y] == k
    {
      assert Get(grown, k) == if k == keys[x] then Get(index, k) + [x] else Get(index, k);
    }
  }

  lemma NextOf(all: seq<nat>, i: nat)
    requires i < |all| && NoRepeats(all)
    ensures all[..i + 1] == all[..i] + [all[i]] && all[i] !in all[..i]
  {
  }

  method IndexInterfaces(nb: NetBox, all: seq<nat>) returns (byVm: map<nat, seq<nat>>)
    requires Enumerates(all, nb.interfaces.Keys)
    ensures forall v: nat :: Enumerates(Get(byVm, v), Rows(nb, v))
  {
    byVm := map[];
    ghost var keys := map r | r in nb.interfaces && nb.interfaces[r].vm.Some? :: nb.interfaces[r].vm.value;
    for i := 0 to |all|
      invariant Bucketed(byVm, keys, all[..i])
    {
      NextOf(all, i);
      var r := all[i];
      if nb.interfaces[r].vm.Some? {
        var v := nb.interfaces[r].vm.value;
        BucketAppend(byVm, keys, all[..i], r);
        byVm := byVm[v := Get(byVm, v) + [r]];
      } else {
        BucketSkip(byVm, keys, all[..i], r);
      }
    }
    assert all[..|all|] == all;
  }

  method IndexMacs(nb: NetBox, all: seq<nat>) returns (byAddress: map<string, seq<nat>>)
    requires Enumerates(all, nb.macs.Keys)
    ensures forall a :: Enumerates(Get(byAddress, a), MacsAt(nb, a))
  {
    hide CanonicalMac;
    byAddress := map[];
    ghost var keys := map m | m in nb.macs
      && CanonicalMac(nb.macs[m].address).Some? :: CanonicalMac(nb.macs[m].address).value;
    for i := 0 to |all|
      invariant Bucketed(byAddress, keys, all[..i])
    {
      NextOf(all, i);
      var m := all[i];
      var value := CanonicalMac(nb.macs[m].address);
      if value.Some? {
        BucketAppend(byAddress, keys, all[..i], m);
        byAddress := byAddress[value.value := Get(byAddress, value.value) + [m]];
      } else {
        BucketSkip(byAddress, keys, all[..i], m);
      }
    }
    assert all[..|all|] == all;
  }

  method IndexIps(nb: NetBox, all: seq<nat>) returns (byAddress: map<IpKey, seq<nat>>)
    requires Enumerates(all, nb.ips.Keys)
    ensures forall k :: Enumerates(Get(byAddress, k), IpsAt(nb, k))
  {
    byAddress := map[];
    ghost var keys := map p | p in nb.ips
      && nb.ips[p].address.Spelled? :: IpKey(nb.ips[p].address.iface, nb.ips[p].vrf);
    for i := 0 to |all|
      invariant Bucketed(byAddress, keys, all[..i])
    {
      NextOf(all, i);
      var p := all[i];
      if nb.ips[p].address.Spelled? {
        var key := IpKey(nb.ips[p].address.iface, nb.ips[p].vrf);
        BucketAppend(byAddress, keys, all[..i], p);
        byAddress := byAddress[key := Get(byAddress, key) + [p]];
      } else {
        BucketSkip(byAddress, keys, all[..i], p);
      }
    }
    assert all[..|all|] == all;
  }

  /** `prepare_lxc_network_inventory`: every index equals the naive scan of the records. */
  method PrepareInventory(nb: NetBox, l: Listing) returns (inv: Inventory)
    requires Lists(nb, l)
    ensures Indexes(nb, inv)
  {
    hide Rows, MacsAt, IpsAt, NoRepeats;
    var byVm := IndexInterfaces(nb, l.interfaces);
    var byMac := IndexMacs(nb, l.macs);
    var byIp := IndexIps(nb, l.ips);
    inv := Inventory(l.vms, byVm, byMac, byIp);
  }
}
