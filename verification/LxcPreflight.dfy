/** The LXC preflight as it runs: ordered checks that stop at the first refusal and fill the write contexts. */
module LxcPreflight {
  import opened Wrappers
  import opened Texts
  import opened SourceIdentities
  import opened Guests
  import opened LxcNetworks
  import opened LxcInventory

  /** `select_best_identity_matches` over one VM's rows, then the adoption-by-name refusal. */
  method MatchInterface(nb: NetBox, rows: seq<nat>, ghost vm: nat, c: Container, n: Nic) returns (f: Found)
    requires Enumerates(rows, Rows(nb, vm))
    ensures f == FindInterface(nb, vm, c, n)
  {
    hide NicRank, Fold, Display;
    assert forall x :: x in rows ==> x in nb.interfaces;
    var best: nat := NO_MATCH;
    var matches: seq<nat> := [];
    for i := 0 to |rows|
      invariant forall x :: x in rows[..i] ==>
        x in nb.interfaces && NicRank(nb.interfaces[x].fields.identities, c, n).Some? && Rank(nb, x, c, n) <= best
      invariant forall x: nat :: x in matches <==> x in rows[..i] && Rank(nb, x, c, n) == best && best != NO_MATCH
      invariant NoRepeats(matches) && (best != NO_MATCH ==> matches != [])
    {
      NextOf(rows, i);
      var rank := NicRank(nb.interfaces[rows[i]].fields.identities, c, n);
      if rank.None? {
        assert rows[i] in Rows(nb, vm);
        return Refused;
      }
      if rank.value > best {
        best := rank.value;
        matches := [rows[i]];
      } else if rank.value != NO_MATCH && rank.value == best {
        Append(matches, rows[i]);
        matches := matches + [rows[i]];
      }
    }
    assert rows[..|rows|] == rows;
    BestIs(nb, vm, c, n, rows, matches, best);
    if |matches| > 1 {
      assert matches[0] in Best(nb, vm, c, n) && matches[1] in Best(nb, vm, c, n);
      return Refused;
    }
    if |matches| == 1 {
      assert Best(nb, vm, c, n) == {matches[0]};
      return At(matches[0]);
    }
    for i := 0 to |rows|
      invariant forall x :: x in rows[..i] ==>
        Fold(nb.interfaces[x].name) != Fold(n.name) && Fold(nb.interfaces[x].name) != Fold(Display(c, n))
    {
      NextOf(rows, i);
      if Fold(nb.interfaces[rows[i]].name) == Fold(n.name) || Fold(nb.interfaces[rows[i]].name) == Fold(Display(c, n)) {
        assert rows[i] in Rows(nb, vm);
        return Refused;
      }
    }
    return Absent;
  }

  /** The loop's collected matches are the best-ranked rows. */
  lemma BestIs(nb: NetBox, vm: nat, c: Container, n: Nic, rows: seq<nat>, matches: seq<nat>, best: nat)
    requires Enumerates(rows, Rows(nb, vm))
    requires forall x :: x in rows ==> Rank(nb, x, c, n) <= best
    requires forall x: nat :: x in matches <==> x in rows && Rank(nb, x, c, n) == best && best != NO_MATCH
    requires best != NO_MATCH ==> matches != []
    ensures forall x: nat :: x in matches <==> x in Best(nb, vm, c, n)
  {
    hide Rank;
    forall x: nat | x in Best(nb, vm, c, n)
      ensures x in matches
    {
      if best != NO_MATCH {
        assert matches[0] in Rows(nb, vm);
      }
    }
  }

  /** `_find_lxc_vm` and the target-cluster check. */
  method MatchVm(nb: NetBox, vms: seq<nat>, cluster: nat, c: Container) returns (v: Option<nat>)
    requires Enumerates(vms, nb.vms.Keys)
    ensures v == FindVm(nb, cluster, c)
  {
    hide MatchRank, VmMatches;
    var best: nat := NO_MATCH;
    var matches: seq<nat> := [];
    for i := 0 to |vms|
      invariant forall x :: x in vms[..i] ==>
        && x in nb.vms && MatchRank(nb.vms[x].identities, LxcIdentity(c), c.legacyId, c.legacyOwner).Some?
        && VmRank(nb, x, c) <= best
      invariant forall x: nat :: x in matches <==> x in vms[..i] && VmRank(nb, x, c) == best && best != NO_MATCH
      invariant NoRepeats(matches) && (best != NO_MATCH ==> matches != [])
    {
      NextOf(vms, i);
      var rank := MatchRank(nb.vms[vms[i]].identities, LxcIdentity(c), c.legacyId, c.legacyOwner);
      if rank.None? {
        assert !VmRanked(nb, c);
        return None;
      }
      if rank.value > best {
        best := rank.value;
        matches := [vms[i]];
      } else if rank.value != NO_MATCH && rank.value == best {
        Append(matches, vms[i]);
        matches := matches + [vms[i]];
      }
    }
    assert vms[..|vms|] == vms;
    VmMatchesAre(nb, c, vms, matches, best);
    FoundVm(nb, cluster, c, matches);
    if |matches| != 1 {
      return None;
    }
    v := if nb.vms[matches[0]].cluster == Some(cluster) then Some(matches[0]) else None;
  }

  lemma FoundVm(nb: NetBox, cluster: nat, c: Container, matches: seq<nat>)
    requires VmRanked(nb, c) && NoRepeats(matches)
    requires forall x: nat :: x in matches <==> x in VmMatches(nb, c)
    ensures |matches| != 1 ==> FindVm(nb, cluster, c) == None
    ensures |matches| == 1 ==>
      && matches[0] in nb.vms
      && FindVm(nb, cluster, c) == if nb.vms[matches[0]].cluster == Some(cluster) then Some(matches[0]) else None
  {
    hide VmRank, VmRanked;
    if |matches| == 1 {
      assert matches[0] in VmMatches(nb, c);
      assert VmMatches(nb, c) == {matches[0]};
    } else if |matches| > 1 {
      assert matches[0] in VmMatches(nb, c) && matches[1] in VmMatches(nb, c);
    }
  }

  lemma VmMatchesAre(nb: NetBox, c: Container, vms: seq<nat>, matches: seq<nat>, best: nat)
    requires Enumerates(vms, nb.vms.Keys)
    requires forall x :: x in vms ==> VmRank(nb, x, c) <= best
    requires forall x: nat :: x in matches <==> x in vms && VmRank(nb, x, c) == best && best != NO_MATCH
    requires best != NO_MATCH ==> matches != []
    ensures forall x: nat :: x in matches <==> x in VmMatches(nb, c)
  {
    hide VmRank;
    forall x: nat | x in VmMatches(nb, c)
      ensures x in matches
    {
      if best != NO_MATCH {
        assert matches[0] in nb.vms;
      }
    }
  }

  datatype IpContext = IpContext(key: IpKey, existing: Option<nat>)

  datatype NicContext = NicContext(
    nic: Nic, existing: Option<nat>, changes: Changes, fields: CustomFields,
    mac: Option<string>, existingMac: Option<nat>, ips: seq<IpContext>)

  datatype ContainerContext = ContainerContext(c: Container, vm: nat, nics: seq<NicContext>, candidate: Option<IpKey>)

  /** The only member, if any. */
  ghost function Sole(s: set<nat>): Option<nat> {
    if s == {} then None else var x :| x in s; Some(x)
  }

  lemma SoleOf(list: seq<nat>, all: set<nat>)
    requires Enumerates(list, all)
    ensures |list| <= 1 <==> AtMostOne(all)
    ensures |list| == 1 ==> Sole(all) == Some(list[0])
    ensures list == [] ==> Sole(all) == None
  {
    if |list| > 1 {
      assert list[0] in all && list[1] in all && list[0] != list[1];
    } else if |list| == 1 {
      assert all == {list[0]};
    } else {
      assert all == {};
    }
  }

  /** `_check_lxc_mac`. */
  method CheckMac(nb: NetBox, inv: Inventory, f: Found, n: Nic) returns (ok: bool, existing: Option<nat>)
    requires Indexes(nb, inv)
    ensures ok <==> MacPasses(nb, f, n)
    ensures ok ==> existing == if CanonicalMac(n.mac).Some? then Sole(MacsAt(nb, CanonicalMac(n.mac).value)) else None
  {
    hide CanonicalMac, Sole;
    existing := None;
    var value := CanonicalMac(n.mac);
    if value.None? {
      return true, None;
    }
    var matches := Get(inv.macsByAddress, value.value);
    assert Enumerates(matches, MacsAt(nb, value.value));
    SoleOf(matches, MacsAt(nb, value.value));
    if |matches| > 1 {
      return false, None;
    }
    if |matches| == 1 {
      assert matches[0] in MacsAt(nb, value.value);
      existing := Some(matches[0]);
      if !Allowed(nb.macs[matches[0]].owner, f) {
        return false, None;
      }
    }
    if f.At? && f.id in nb.primaryMac && (existing.None? || nb.primaryMac[f.id] != existing.value) {
      return false, None;
    }
    ok := true;
  }

  ghost function IpContexts(nb: NetBox, keys: seq<IpKey>): seq<IpContext> {
    if keys == [] then []
    else IpContexts(nb, keys[..|keys| - 1]) + [IpContext(keys[|keys| - 1], Sole(IpsAt(nb, keys[|keys| - 1])))]
  }

  function V4Keys(keys: seq<IpKey>): set<IpKey> {
    set k | k in keys && k.iface.v4
  }

  lemma IpContextsPush(nb: NetBox, keys: seq<IpKey>, key: IpKey)
    ensures IpContexts(nb, keys + [key]) == IpContexts(nb, keys) + [IpContext(key, Sole(IpsAt(nb, key)))]
    ensures V4Keys(keys + [key]) == V4Keys(keys) + if key.iface.v4 then {key} else {}
  {
  }

  lemma {:induction false} KeysPrefix(n: Nic, i: nat)
    requires i < |n.ips|
    ensures Usable(n.ips[i]) ==> IpKeys(n, n.ips[..i + 1]) == IpKeys(n, n.ips[..i]) + [IpKey(n.ips[i].iface, n.vrf)]
    ensures !Usable(n.ips[i]) ==> IpKeys(n, n.ips[..i + 1]) == IpKeys(n, n.ips[..i])
  {
    assert n.ips[..i + 1] == n.ips[..i] + [n.ips[i]];
    IpKeysConcat(n, n.ips[..i], [n.ips[i]]);
  }

  lemma {:induction false} IpKeysConcat(n: Nic, a: seq<IpText>, b: seq<IpText>)
    ensures IpKeys(n, a + b) == IpKeys(n, a) + IpKeys(n, b)
  {
    if a == [] {
      assert a + b == b;
    } else {
      IpKeysConcat(n, a[1..], b);
      assert (a + b)[1..] == a[1..] + b && (a + b)[0] == a[0];
      Regroup(if Usable(a[0]) then [IpKey(a[0].iface, n.vrf)] else [], IpKeys(n, a[1..]), IpKeys(n, b));
    }
  }

  lemma {:induction false} KeysPrefixIn(n: Nic, i: nat)
    requires i <= |n.ips|
    ensures forall k :: k in IpKeys(n, n.ips[..i]) ==> k in Keys(n)
  {
    IpKeysConcat(n, n.ips[..i], n.ips[i..]);
    assert n.ips == n.ips[..i] + n.ips[i..];
  }

  ghost predicate IpPasses(nb: NetBox, f: Found, key: IpKey) {
    AtMostOne(IpsAt(nb, key)) && forall x :: x in IpsAt(nb, key) ==> Allowed(nb.ips[x].owner, f)
  }

  method CheckIp(nb: NetBox, inv: Inventory, f: Found, key: IpKey) returns (ok: bool, ctx: IpContext)
    requires Indexes(nb, inv)
    ensures ok <==> IpPasses(nb, f, key)
    ensures ok ==> ctx == IpContext(key, Sole(IpsAt(nb, key)))
  {
    hide Sole;
    ctx := IpContext(key, None);
    var matches := Get(inv.ipsByAddress, key);
    assert Enumerates(matches, IpsAt(nb, key));
    SoleOf(matches, IpsAt(nb, key));
    if |matches| > 1 {
      return false, ctx;
    }
    if |matches| == 1 {
      assert matches[0] in IpsAt(nb, key);
      if !Allowed(nb.ips[matches[0]].owner, f) {
        return false, ctx;
      }
      ctx := IpContext(key, Some(matches[0]));
    }
    ok := true;
  }

  /** `_check_lxc_ips`: usable scoped addresses in discovery order, and the IPv4 candidates. */
  method CheckIps(nb: NetBox, inv: Inventory, f: Found, n: Nic)
    returns (ok: bool, ips: seq<IpContext>, v4: set<IpKey>)
    requires Indexes(nb, inv)
    ensures ok <==> IpsPass(nb, f, n)
    ensures ok ==> ips == IpContexts(nb, Keys(n)) && v4 == V4Keys(Keys(n))
  {
    hide Sole, Reserved, IpPasses, IpsAt, Indexes, IpsPass, IpContexts, V4Keys, IpKeys;
    ips, v4 := [], {};
    NoIps(nb, n);
    for i := 0 to |n.ips|
      invariant ips == IpContexts(nb, IpKeys(n, n.ips[..i])) && v4 == V4Keys(IpKeys(n, n.ips[..i]))
      invariant forall k :: k in IpKeys(n, n.ips[..i]) ==> IpPasses(nb, f, k)
    {
      KeysPrefix(n, i);
      if !Usable(n.ips[i]) {
        continue;
      }
      var key := IpKey(n.ips[i].iface, n.vrf);
      if key.iface.v4 {
        v4 := v4 + {key};
      }
      var passes, ctx := CheckIp(nb, inv, f, key);
      if !passes {
        KeysPrefixIn(n, i + 1);
        IpRefused(nb, f, n, key);
        return false, [], {};
      }
      ips := ips + [ctx];
      IpContextsPush(nb, IpKeys(n, n.ips[..i]), key);
    }
    assert n.ips[..|n.ips|] == n.ips;
    IpsPassAll(nb, f, n);
    ok := true;
  }

  lemma NoIps(nb: NetBox, n: Nic)
    ensures IpKeys(n, n.ips[..0]) == [] && IpContexts(nb, []) == [] && V4Keys([]) == {}
  {
  }

  lemma IpRefused(nb: NetBox, f: Found, n: Nic, key: IpKey)
    requires key in Keys(n) && !IpPasses(nb, f, key)
    ensures !IpsPass(nb, f, n)
  {
  }

  lemma IpsPassAll(nb: NetBox, f: Found, n: Nic)
    requires forall k :: k in Keys(n) ==> IpPasses(nb, f, k)
    ensures IpsPass(nb, f, n)
  {
  }

  ghost function NicContextOf(nb: NetBox, vm: nat, c: Container, n: Nic): NicContext
    requires NicPasses(nb, vm, c, n)
  {
    var f := FindInterface(nb, vm, c, n);
    var d := DesiredFields(c, n, FieldsOf(nb, f)).value;
    NicContext(n, if f.At? then Some(f.id) else None,
               if f.At? && f.id in nb.interfaces then ChangesFor(nb.interfaces[f.id], Display(c, n), d) else NO_CHANGES,
               d, CanonicalMac(n.mac),
               if CanonicalMac(n.mac).Some? then Sole(MacsAt(nb, CanonicalMac(n.mac).value)) else None,
               IpContexts(nb, Keys(n)))
  }

  /** `_prepare_lxc_nic_context` with the MAC and IP checks. */
  method PrepareNic(nb: NetBox, inv: Inventory, vm: nat, c: Container, n: Nic)
    returns (ok: bool, ctx: NicContext, v4: set<IpKey>)
    requires Indexes(nb, inv)
    ensures ok <==> NicPasses(nb, vm, c, n)
    ensures ok ==> ctx == NicContextOf(nb, vm, c, n) && v4 == V4Keys(Keys(n))
  {
    hide MacPasses, IpsPass, DesiredFields, FindInterface, CanonicalMac, Sole, V4Keys, IpContexts;
    v4 := {};
    ctx := NicContext(n, None, NO_CHANGES, EMPTY_FIELDS, None, None, []);
    var f := MatchInterface(nb, Get(inv.interfacesByVm, vm), vm, c, n);
    if f == Refused {
      return false, ctx, v4;
    }
    var desired := DesiredFields(c, n, FieldsOf(nb, f));
    if desired.None? {
      return false, ctx, v4;
    }
    var changes := if f.At? && f.id in nb.interfaces
      then ChangesFor(nb.interfaces[f.id], Display(c, n), desired.value) else NO_CHANGES;
    var macOk, existingMac := CheckMac(nb, inv, f, n);
    if !macOk {
      return false, ctx, v4;
    }
    var ipsOk, ips, ipv4 := CheckIps(nb, inv, f, n);
    if !ipsOk {
      return false, ctx, v4;
    }
    v4 := ipv4;
    ctx := NicContext(n, if f.At? then Some(f.id) else None, changes,
                      desired.value, CanonicalMac(n.mac), existingMac, ips);
    ok := true;
  }

  ghost predicate NamesFreeFor(nb: NetBox, vm: nat, c: Container, n: Nic) {
    forall r :: r in Rows(nb, vm) && Fold(nb.interfaces[r].name) == Fold(Display(c, n)) ==>
      FindInterface(nb, vm, c, n) == At(r)
  }

  /** `validate_interface_names`: the growing name set, then the rows of the VM. */
  method ValidateNames(nb: NetBox, inv: Inventory, vm: nat, c: Container) returns (ok: bool)
    requires Indexes(nb, inv)
    ensures ok <==> NamesPass(nb, vm, c) && forall n :: n in c.nics ==> FindInterface(nb, vm, c, n) != Refused
  {
    hide FindInterface, Fold, Display;
    var names: set<string> := {};
    var rows := Get(inv.interfacesByVm, vm);
    assert Enumerates(rows, Rows(nb, vm));
    assert forall k :: 0 <= k < |rows| ==> rows[k] in Rows(nb, vm);
    for i := 0 to |c.nics|
      invariant forall x :: x in names <==> exists k :: 0 <= k < i && x == Fold(Display(c, c.nics[k]))
      invariant forall k, l :: 0 <= k < l < i ==> Fold(Display(c, c.nics[k])) != Fold(Display(c, c.nics[l]))
      invariant forall k :: 0 <= k < i ==>
        NamesFreeFor(nb, vm, c, c.nics[k]) && FindInterface(nb, vm, c, c.nics[k]) != Refused
    {
      var n := c.nics[i];
      var name := Fold(Display(c, n));
      if name in names {
        return false;
      }
      names := names + {name};
      var owned := MatchInterface(nb, rows, vm, c, n);
      if owned == Refused {
        return false;
      }
      for r := 0 to |rows|
        invariant forall k :: 0 <= k < r && Fold(nb.interfaces[rows[k]].name) == name ==> owned == At(rows[k])
      {
        assert rows[r] in Rows(nb, vm);
        if Fold(nb.interfaces[rows[r]].name) == name && owned != At(rows[r]) {
          assert n in c.nics;
          return false;
        }
      }
      assert NamesFreeFor(nb, vm, c, n);
    }
    assert forall n :: n in c.nics ==> NamesFreeFor(nb, vm, c, n);
    ok := true;
  }

  // ------------------------------------------------------- container and batch

  /** The context says, field by field, what the preflight found for the container. */
  ghost predicate Describes(nb: NetBox, cluster: nat, c: Container, ctx: ContainerContext)
    requires ContainerPasses(nb, cluster, c)
  {
    && ctx.c == c
    && FindVm(nb, cluster, c) == Some(ctx.vm)
    && |ctx.nics| == |c.nics|
    && (forall k :: 0 <= k < |c.nics| ==> ctx.nics[k] == NicContextOf(nb, ctx.vm, c, c.nics[k]))
    && ctx.candidate == Candidate(nb, ctx.vm, c)
  }

  lemma {:induction false} NicJobsConcat(c: Container, a: seq<Nic>, b: seq<Nic>)
    ensures NicJobs(c, a + b) == NicJobs(c, a) + NicJobs(c, b)
  {
    if a == [] {
      assert a + b == b;
    } else {
      NicJobsConcat(c, a[1..], b);
      assert (a + b)[1..] == a[1..] + b;
      Regroup([Job(c, a[0])], NicJobs(c, a[1..]), NicJobs(c, b));
    }
  }

  lemma {:induction false} JobsConcat(a: seq<Container>, b: seq<Container>)
    ensures Jobs(a + b) == Jobs(a) + Jobs(b)
  {
    hide NicJobs;
    if a == [] {
      assert a + b == b;
    } else {
      JobsConcat(a[1..], b);
      assert (a + b)[1..] == a[1..] + b && (a + b)[0] == a[0];
      Regroup(NicJobs(a[0], a[0].nics), Jobs(a[1..]), Jobs(b));
    }
  }

  /** The MAC one job adds to the batch. */
  function MacOf(j: Job): seq<string> {
    if CanonicalMac(j.n.mac).Some? then [CanonicalMac(j.n.mac).value] else []
  }

  lemma {:induction false} DiscoveredConcat(a: seq<Job>, b: seq<Job>)
    ensures Discovered(a + b) == Discovered(a) + Discovered(b)
  {
    hide CanonicalMac;
    if a == [] {
      assert a + b == b;
    } else {
      DiscoveredConcat(a[1..], b);
      assert (a + b)[1..] == a[1..] + b && (a + b)[0] == a[0];
      assert Discovered(a) == MacOf(a[0]) + Discovered(a[1..])
        && Discovered(a + b) == MacOf(a[0]) + Discovered((a + b)[1..]);
      Regroup(MacOf(a[0]), Discovered(a[1..]), Discovered(b));
    }
  }

  lemma {:induction false} DiscoveredIpsConcat(a: seq<Job>, b: seq<Job>)
    ensures DiscoveredIps(a + b) == DiscoveredIps(a) + DiscoveredIps(b)
  {
    hide Keys;
    if a == [] {
      assert a + b == b;
    } else {
      DiscoveredIpsConcat(a[1..], b);
      assert (a + b)[1..] == a[1..] + b && (a + b)[0] == a[0];
      Regroup(Keys(a[0].n), DiscoveredIps(a[1..]), DiscoveredIps(b));
    }
  }

  function MacCount(n: Nic): multiset<string> {
    if CanonicalMac(n.mac).Some? then multiset{CanonicalMac(n.mac).value} else multiset{}
  }

  lemma NextJob(c: Container, i: nat)
    requires i < |c.nics|
    ensures NicJobs(c, c.nics[..i + 1]) == NicJobs(c, c.nics[..i]) + [Job(c, c.nics[i])]
  {
    var n := c.nics[i];
    assert c.nics[..i + 1] == c.nics[..i] + [n];
    NicJobsConcat(c, c.nics[..i], [n]);
    assert NicJobs(c, [n]) == [Job(c, n)];
  }

  lemma NextIpv4(c: Container, i: nat)
    requires i < |c.nics|
    ensures Ipv4(c.nics[..i + 1]) == Ipv4(c.nics[..i]) + V4Keys(Keys(c.nics[i]))
  {
    hide Keys;
    assert forall m :: m in c.nics[..i + 1] <==> m in c.nics[..i] || m == c.nics[i];
  }

  /** What one more NIC adds to the batch-wide dictionaries. */
  lemma NextNic(c: Container, i: nat)
    requires i < |c.nics|
    ensures multiset(DiscoveredIps(NicJobs(c, c.nics[..i + 1]))) ==
            multiset(DiscoveredIps(NicJobs(c, c.nics[..i]))) + multiset(Keys(c.nics[i]))
    ensures multiset(Discovered(NicJobs(c, c.nics[..i + 1]))) ==
            multiset(Discovered(NicJobs(c, c.nics[..i]))) + MacCount(c.nics[i])
    ensures Ipv4(c.nics[..i + 1]) == Ipv4(c.nics[..i]) + V4Keys(Keys(c.nics[i]))
  {
    hide CanonicalMac, Keys, NicJobs, Ipv4, V4Keys;
    var j := Job(c, c.nics[i]);
    NextJob(c, i);
    DiscoveredConcat(NicJobs(c, c.nics[..i]), [j]);
    assert Discovered([j]) == MacOf(j);
    DiscoveredIpsConcat(NicJobs(c, c.nics[..i]), [j]);
    assert DiscoveredIps([j]) == Keys(j.n);
    NextIpv4(c, i);
  }

  /** The NIC loop of `_prepare_lxc_network_context`. */
  method PrepareNics(nb: NetBox, inv: Inventory, vm: nat, c: Container)
    returns (ok: bool, nics: seq<NicContext>, macs: multiset<string>, ips: multiset<IpKey>, ipv4: set<IpKey>)
    requires Indexes(nb, inv)
    ensures ok <==> forall n :: n in c.nics ==> NicPasses(nb, vm, c, n)
    ensures ok ==> |nics| == |c.nics| && forall k :: 0 <= k < |c.nics| ==> nics[k] == NicContextOf(nb, vm, c, c.nics[k])
    ensures ok ==>
              && macs == multiset(Discovered(NicJobs(c, c.nics)))
              && ips == multiset(DiscoveredIps(NicJobs(c, c.nics)))
    ensures ok ==> ipv4 == Ipv4(c.nics)
  {
    hide NicPasses, NicContextOf, MacCount, Keys, V4Keys, Indexes, Ipv4, NicJobs, Discovered, DiscoveredIps;
    nics, macs, ips, ipv4 := [], multiset{}, multiset{}, {};
    NoNics(c);
    for i := 0 to |c.nics|
      invariant |nics| == i
      invariant forall k :: 0 <= k < i ==>
                NicPasses(nb, vm, c, c.nics[k]) && nics[k] == NicContextOf(nb, vm, c, c.nics[k])
      invariant macs == multiset(Discovered(NicJobs(c, c.nics[..i])))
      invariant ips == multiset(DiscoveredIps(NicJobs(c, c.nics[..i])))
      invariant ipv4 == Ipv4(c.nics[..i])
    {
      var nicOk, nic, nicIpv4 := PrepareNic(nb, inv, vm, c, c.nics[i]);
      if !nicOk {
        return false, nics, macs, ips, ipv4;
      }
      NextNic(c, i);
      macs, ips, ipv4 := macs + MacCount(c.nics[i]), ips + multiset(Keys(c.nics[i])), ipv4 + nicIpv4;
      nics := nics + [nic];
    }
    assert c.nics[..|c.nics|] == c.nics;
    ok := true;
  }

  /** `_prepare_lxc_network_context`, with what it adds to the shared MAC and IP dictionaries. */
  method PrepareContainer(nb: NetBox, inv: Inventory, cluster: nat, c: Container)
    returns (ok: bool, ctx: ContainerContext, macs: multiset<string>, ips: multiset<IpKey>)
    requires Indexes(nb, inv)
    ensures ok <==> ContainerPasses(nb, cluster, c)
    ensures ok ==> Describes(nb, cluster, c, ctx)
    ensures ok ==>
              && macs == multiset(Discovered(NicJobs(c, c.nics)))
              && ips == multiset(DiscoveredIps(NicJobs(c, c.nics)))
  {
    hide FindVm, NamesPass, NicPasses, NicContextOf, Indexes, Ipv4, NicJobs, Discovered, DiscoveredIps, Candidate;
    macs, ips := multiset{}, multiset{};
    ctx := ContainerContext(c, 0, [], None);
    InventoryVms(nb, inv);
    var vm := MatchVm(nb, inv.vms, cluster, c);
    if vm.None? {
      return false, ctx, macs, ips;
    }
    var named := ValidateNames(nb, inv, vm.value, c);
    if !named {
      if forall n :: n in c.nics ==> NicPasses(nb, vm.value, c, n) {
        NoneRefused(nb, vm.value, c);
      }
      return false, ctx, macs, ips;
    }
    var nicsOk, nics, nicMacs, nicIps, ipv4 := PrepareNics(nb, inv, vm.value, c);
    if !nicsOk {
      return false, ctx, macs, ips;
    }
    var candidate := PickCandidate(nb, vm.value, c, ipv4);
    return true, ContainerContext(c, vm.value, nics, candidate), nicMacs, nicIps;
  }

  lemma InventoryVms(nb: NetBox, inv: Inventory)
    requires Indexes(nb, inv)
    ensures Enumerates(inv.vms, nb.vms.Keys)
  {
  }

  lemma NoneRefused(nb: NetBox, vm: nat, c: Container)
    requires forall n :: n in c.nics ==> NicPasses(nb, vm, c, n)
    ensures forall n :: n in c.nics ==> FindInterface(nb, vm, c, n) != Refused
  {
  }

  lemma NoNics(c: Container)
    ensures Discovered(NicJobs(c, c.nics[..0])) == [] && DiscoveredIps(NicJobs(c, c.nics[..0])) == []
            && Ipv4(c.nics[..0]) == {}
  {
  }

  /** The sole IPv4 candidate of a VM whose primary address no provider owns. */
  method PickCandidate(nb: NetBox, vm: nat, c: Container, ipv4: set<IpKey>) returns (candidate: Option<IpKey>)
    requires ipv4 == Ipv4(c.nics)
    ensures candidate == Candidate(nb, vm, c)
  {
    if vm in nb.vms && nb.vms[vm].primaryOwned {
      return None;
    }
    if |ipv4| != 1 {
      return None;
    }
    var k :| k in ipv4;
    assert |ipv4 - {k}| == 0;
    assert ipv4 == {k};
    return Some(k);
  }

  lemma {:induction false} NoRepeatsIsCountOne<T>(s: seq<T>)
    ensures NoRepeats(s) <==> forall x :: x in multiset(s) ==> multiset(s)[x] == 1
  {
    if s != [] {
      var init, last := s[..|s| - 1], s[|s| - 1];
      assert s == init + [last];
      NoRepeatsIsCountOne(init);
      if last in init {
        assert multiset(s)[last] == multiset(init)[last] + 1 > 1;
        var i :| 0 <= i < |init| && init[i] == last;
        assert s[i] == s[|s| - 1];
      } else {
        assert multiset(init)[last] == 0;
        if NoRepeats(init) {
          forall i, j | 0 <= i < j < |s|
            ensures s[i] != s[j]
          {
            assert s[i] == init[i] && s[i] in init;
            if j < |init| {
              assert s[j] == init[j];
            }
          }
        } else {
          var x :| x in multiset(init) && multiset(init)[x] != 1;
          assert multiset(s)[x] == multiset(init)[x];
          var i, j :| 0 <= i < j < |init| && init[i] == init[j];
          assert s[i] == s[j];
        }
      }
    }
  }

  /**
   `prepare_lxc_network_contexts`: the batch is accepted exactly when it passes, and each context describes
   its container.
   */
  method Prepare(nb: NetBox, inv: Inventory, cluster: nat, cs: seq<Container>)
    returns (ok: bool, ctxs: seq<ContainerContext>)
    requires Indexes(nb, inv)
    ensures ok <==> Passes(nb, cluster, cs)
    ensures ok ==> |ctxs| == |cs| && forall k :: 0 <= k < |cs| ==> Describes(nb, cluster, cs[k], ctxs[k])
  {
    hide Indexes, ContainerPasses, Describes, NicJobs, Discovered, DiscoveredIps, Jobs, NoRepeats;
    ctxs := [];
    var macs, ips := multiset{}, multiset{};
    NoContainers(cs);
    for i := 0 to |cs|
      invariant |ctxs| == i
      invariant forall k :: 0 <= k < i ==> ContainerPasses(nb, cluster, cs[k]) && Describes(nb, cluster, cs[k], ctxs[k])
      invariant macs == multiset(Discovered(Jobs(cs[..i]))) && ips == multiset(DiscoveredIps(Jobs(cs[..i])))
    {
      var passed, ctx, macs', ips' := PrepareContainer(nb, inv, cluster, cs[i]);
      if !passed {
        assert cs[i] in cs;
        return false, [];
      }
      NextContainer(cs, i);
      macs, ips, ctxs := macs + macs', ips + ips', ctxs + [ctx];
    }
    assert cs[..|cs|] == cs;
    NoRepeatsIsCountOne(Discovered(Jobs(cs)));
    NoRepeatsIsCountOne(DiscoveredIps(Jobs(cs)));
    ok := (forall a | a in macs :: macs[a] == 1) && (forall k | k in ips :: ips[k] == 1);
  }

  lemma NoContainers(cs: seq<Container>)
    ensures Discovered(Jobs(cs[..0])) == [] && DiscoveredIps(Jobs(cs[..0])) == []
  {
  }

  lemma NextContainer(cs: seq<Container>, i: nat)
    requires i < |cs|
    ensures Discovered(Jobs(cs[..i + 1])) == Discovered(Jobs(cs[..i])) + Discovered(NicJobs(cs[i], cs[i].nics))
    ensures DiscoveredIps(Jobs(cs[..i + 1])) == DiscoveredIps(Jobs(cs[..i])) + DiscoveredIps(NicJobs(cs[i], cs[i].nics))
  {
    hide Discovered, DiscoveredIps, NicJobs;
    assert cs[..i + 1] == cs[..i] + [cs[i]];
    JobsConcat(cs[..i], [cs[i]]);
    assert Jobs([cs[i]]) == NicJobs(cs[i], cs[i].nics);
    DiscoveredConcat(Jobs(cs[..i]), NicJobs(cs[i], cs[i].nics));
    DiscoveredIpsConcat(Jobs(cs[..i]), NicJobs(cs[i], cs[i].nics));
  }
}
