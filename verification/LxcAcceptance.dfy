/**
 Which LXC network batches the preflight accepts, stated on the discovered interfaces and on the records they
 meet: nothing else is refused, and nothing else is let through.
 */
module LxcAcceptance {
  import opened Wrappers
  import opened Texts
  import opened SourceIdentities
  import opened Guests
  import opened LxcNetworks
  import opened LxcPreflight
  import opened LxcApplied

  // ------------------------------------------------------------- display names

  function Label(n: Nic): string {
    if n.bridge.Some? && n.bridge.value != "" then n.bridge.value else n.name
  }

  function KeyText(n: Nic): string {
    if n.externalId.Some? && n.externalId.value != "" then n.externalId.value else n.name
  }

  predicate SameLabel(a: Nic, b: Nic) {
    Fold(Label(a)) == Fold(Label(b))
  }

  /** Two interfaces of the container carry the label, ignoring case. */
  predicate Collides(nics: seq<Nic>, n: Nic) {
    exists i, j :: 0 <= i < j < |nics| && SameLabel(nics[i], n) && SameLabel(nics[j], n)
  }

  lemma LabelIs(a: Nic, b: Nic)
    ensures SameLabel(a, b) <==> Fold(BaseName(a)) == Fold(BaseName(b))
  {
  }

  lemma {:induction false} CountIsPairs(nics: seq<Nic>, n: Nic)
    ensures CountBase(nics, Fold(BaseName(n))) > 0 <==> exists i :: 0 <= i < |nics| && SameLabel(nics[i], n)
    ensures CountBase(nics, Fold(BaseName(n))) > 1 <==> Collides(nics, n)
  {
    hide Fold, Label, BaseName;
    if nics != [] {
      var rest := nics[1..];
      CountIsPairs(rest, n);
      LabelIs(nics[0], n);
      assert forall i :: 0 <= i < |rest| ==> rest[i] == nics[i + 1];
      if i :| 0 <= i < |rest| && SameLabel(rest[i], n) {
        assert SameLabel(nics[i + 1], n);
      }
      if i, j :| 0 <= i < j < |nics| && SameLabel(nics[i], n) && SameLabel(nics[j], n) {
        assert SameLabel(rest[j - 1], n);
        assert i > 0 ==> SameLabel(rest[i - 1], n);
      }
      if i, j :| 0 <= i < j < |rest| && SameLabel(rest[i], n) && SameLabel(rest[j], n) {
        assert SameLabel(nics[i + 1], n) && SameLabel(nics[j + 1], n);
      }
    }
  }

  /** What tells two interfaces of one label apart: the key if it is short, and else ten digits of its hash. */
  function Mark(n: Nic): string {
    if |KeyText(n)| <= 16 then KeyText(n) else if |n.digest| > 10 then n.digest[..10] else n.digest
  }

  /**
   The display name is the label, unless it is too long or another interface of the container carries it too;
   then it ends with the interface's own mark, and the label is cut to keep the name within 64 characters.
   */
  lemma DisplayIs(nics: seq<Nic>, n: Nic)
    ensures if Collides(nics, n) || |Label(n)| > 64
            then exists k :: 0 <= k <= |Label(n)| && DisplayName(nics, n) == Label(n)[..k] + " / " + Mark(n)
                             && (k == |Label(n)| || |DisplayName(nics, n)| == 64)
            else DisplayName(nics, n) == Label(n)
    ensures |DisplayName(nics, n)| <= 64
  {
    CountIsPairs(nics, n);
    SuffixIs(n);
    hide Fold, CountBase, Collides, Suffix, Mark;
    var base, suffix := Label(n), Suffix(n);
    if Collides(nics, n) || |base| > 64 {
      var k := if |base| <= 64 - |suffix| then |base| else 64 - |suffix|;
      assert DisplayName(nics, n) == base[..k] + suffix;
      JoinedMark(base[..k], Mark(n));
    }
  }

  lemma SuffixIs(n: Nic)
    ensures Suffix(n) == " / " + Mark(n) && |Suffix(n)| <= 19
  {
  }

  lemma JoinedMark(text: string, mark: string)
    ensures text + (" / " + mark) == text + " / " + mark
  {
  }

  // ------------------------------------------------------------ one interface

  /** Identity metadata of which every entry can be merged. */
  predicate Understood(field: IdentityField) {
    match field
    case NoIdentities => true
    case NotList => false
    case Entries(list) => forall e :: e in list ==> e.V2? || e.Legacy? || e.ForeignDict?
  }

  /** The stored fields can take the description of the interface. */
  predicate Extensible(cf: CustomFields, n: Nic) {
    Understood(cf.identities) && !cf.names.NotNames? && (cf.observations.ObsInvalid? ==> n.observations.None?)
  }

  lemma FieldsTakenIff(c: Container, n: Nic, cf: CustomFields)
    ensures DesiredFields(c, n, cf).Some? <==> Extensible(cf, n)
  {
  }

  /** No broken identity entry is met before the identity of the interface. */
  predicate Readable(field: IdentityField, c: Container, n: Nic) {
    field.Entries? ==>
      !BrokenFirst(field.list, SourceIdentity(c.source, c.inst, "lxc-nic", c.vmid + ":" + KeyText(n)))
  }

  lemma RankedIff(field: IdentityField, c: Container, n: Nic)
    ensures NicRank(field, c, n).Some? <==> Readable(field, c, n)
  {
    if field.Entries? {
      ScanFails(field.list, NicIdentity(c, n));
      if Scan(field.list, NicIdentity(c, n)) == Some(false) {
        ScanIs(field.list, NicIdentity(c, n));
        ScanFails(field.list, FormerNicIdentity(c, n));
      }
    }
  }

  ghost predicate RowsReadable(nb: NetBox, vm: nat, c: Container, n: Nic) {
    forall r :: r in nb.interfaces && nb.interfaces[r].vm == Some(vm) ==>
      Readable(nb.interfaces[r].fields.identities, c, n)
  }

  lemma RowsRankedIff(nb: NetBox, vm: nat, c: Container, n: Nic)
    ensures Ranked(nb, vm, c, n) <==> RowsReadable(nb, vm, c, n)
  {
    hide NicRank, Readable;
    forall r | r in nb.interfaces && nb.interfaces[r].vm == Some(vm)
      ensures NicRank(nb.interfaces[r].fields.identities, c, n).Some? <==>
              Readable(nb.interfaces[r].fields.identities, c, n)
    {
      RankedIff(nb.interfaces[r].fields.identities, c, n);
    }
  }

  /** The interface has its row, or none and then its names are free. */
  ghost predicate RowIs(nb: NetBox, vm: nat, c: Container, n: Nic, row: Option<nat>) {
    match row
    case Some(r) => BestRow(nb, vm, c, n, r)
    case None => NoRow(nb, vm, c, n) && !NameInUse(nb, vm, c, n)
  }

  /** Nobody else owns the record. */
  predicate Available(o: Owner, row: Option<nat>) {
    || (o.kind.None? && o.id.None?)
    || (row.Some? && o.kind == Some("virtualization.vminterface") && o.id == row)
  }

  function MacText(n: Nic): string {
    if n.mac.Some? then Upper(Strip(n.mac.value)) else ""
  }

  predicate HasMac(nb: NetBox, m: nat, n: Nic) {
    && m in nb.macs && nb.macs[m].address.Some? && MacText(n) != ""
    && Upper(Strip(nb.macs[m].address.value)) == MacText(n)
  }

  /** At most one record holds the MAC, nobody else owns it, and the row has no other primary MAC. */
  ghost predicate MacClear(nb: NetBox, n: Nic, row: Option<nat>) {
    && (forall a, b :: HasMac(nb, a, n) && HasMac(nb, b, n) ==> a == b)
    && (forall m :: HasMac(nb, m, n) ==> Available(nb.macs[m].owner, row))
    && (MacText(n) != "" && row.Some? && row.value in nb.primaryMac ==> HasMac(nb, nb.primaryMac[row.value], n))
  }

  lemma MacClearIff(nb: NetBox, n: Nic, row: Option<nat>)
    ensures var f := if row.Some? then At(row.value) else Absent;
            MacPasses(nb, f, n) <==> MacClear(nb, n, row)
  {
    hide Upper, Strip;
    var f := if row.Some? then At(row.value) else Absent;
    assert CanonicalMac(n.mac).Some? <==> MacText(n) != "";
    if MacText(n) != "" {
      var ms := MacsAt(nb, MacText(n));
      assert forall m :: m in ms <==> HasMac(nb, m, n);
      assert forall o: Owner :: Allowed(o, f) <==> Available(o, row);
    }
  }

  predicate HasIp(nb: NetBox, i: nat, n: Nic, t: IpText) {
    && i in nb.ips && t.Spelled? && nb.ips[i].address.Spelled?
    && nb.ips[i].address.iface == t.iface && nb.ips[i].vrf == n.vrf
  }

  /** At most one record of the VRF holds the address, and nobody else owns it. */
  ghost predicate IpClear(nb: NetBox, n: Nic, t: IpText, row: Option<nat>) {
    t.Spelled? && !Reserved(t.iface) ==>
      && (forall a, b :: HasIp(nb, a, n, t) && HasIp(nb, b, n, t) ==> a == b)
      && forall i :: HasIp(nb, i, n, t) ==> Available(nb.ips[i].owner, row)
  }

  lemma IpClearIff(nb: NetBox, n: Nic, t: IpText, row: Option<nat>)
    requires t.Spelled? && !Reserved(t.iface)
    ensures var f := if row.Some? then At(row.value) else Absent;
            IpPasses(nb, f, IpKey(t.iface, n.vrf)) <==> IpClear(nb, n, t, row)
  {
    hide Reserved;
    var f, k := if row.Some? then At(row.value) else Absent, IpKey(t.iface, n.vrf);
    assert forall i :: i in IpsAt(nb, k) <==> HasIp(nb, i, n, t);
    assert forall o: Owner :: Allowed(o, f) <==> Available(o, row);
  }

  lemma IpsClearIff(nb: NetBox, n: Nic, row: Option<nat>)
    ensures var f := if row.Some? then At(row.value) else Absent;
            IpsPass(nb, f, n) <==> forall t :: t in n.ips ==> IpClear(nb, n, t, row)
  {
    hide Reserved, IpsAt, IpClear;
    var f := if row.Some? then At(row.value) else Absent;
    assert IpsPass(nb, f, n) <==> forall k :: k in Keys(n) ==> IpPasses(nb, f, k);
    hide IpPasses, IpsPass;
    forall t | t in n.ips
      ensures IpClear(nb, n, t, row) <==> !(t.Spelled? && !Reserved(t.iface)) || IpPasses(nb, f, IpKey(t.iface, n.vrf))
      ensures t.Spelled? && !Reserved(t.iface) ==> IpKey(t.iface, n.vrf) in Keys(n)
    {
      if t.Spelled? && !Reserved(t.iface) {
        IpClearIff(nb, n, t, row);
        KeyIsKnown(n, t);
      } else {
        IpIdle(nb, n, t, row);
      }
    }
    forall k | k in Keys(n)
      ensures exists t :: t in n.ips && t.Spelled? && !Reserved(t.iface) && k == IpKey(t.iface, n.vrf)
    {
      KeysAreUsable(n, n.ips, k);
    }
  }

  lemma IpIdle(nb: NetBox, n: Nic, t: IpText, row: Option<nat>)
    requires !(t.Spelled? && !Reserved(t.iface))
    ensures IpClear(nb, n, t, row)
  {
  }

  /** Everything the interface needs is free for it. */
  ghost predicate NicClear(nb: NetBox, vm: nat, c: Container, n: Nic, row: Option<nat>) {
    && RowsReadable(nb, vm, c, n) && RowIs(nb, vm, c, n, row)
    && Extensible(if row.Some? && row.value in nb.interfaces then nb.interfaces[row.value].fields else EMPTY_FIELDS, n)
    && MacClear(nb, n, row) && forall t :: t in n.ips ==> IpClear(nb, n, t, row)
  }

  /** An interface passes exactly when everything it needs is free for it. */
  lemma NicPassesIff(nb: NetBox, vm: nat, c: Container, n: Nic)
    ensures NicPasses(nb, vm, c, n) <==> exists row :: NicClear(nb, vm, c, n, row)
    ensures forall row :: NicClear(nb, vm, c, n, row) ==>
              FindInterface(nb, vm, c, n) == if row.Some? then At(row.value) else Absent
  {
    hide FindInterface, MacPasses, IpsPass, DesiredFields, Extensible, MacClear, IpClear, BestRow, NoRow, NameInUse,
         RowsReadable, Ranked;
    RowsRankedIff(nb, vm, c, n);
    NeverUnranked(nb, vm, c, n);
    if Ranked(nb, vm, c, n) {
      InterfaceFoundIff(nb, vm, c, n);
      var f := FindInterface(nb, vm, c, n);
      FieldsTakenIff(c, n, FieldsOf(nb, f));
      if f != Refused {
        var row := if f.At? then Some(f.id) else None;
        MacClearIff(nb, n, row);
        IpsClearIff(nb, n, row);
        assert NicPasses(nb, vm, c, n) <==> NicClear(nb, vm, c, n, row);
      }
    }
  }

  lemma NeverUnranked(nb: NetBox, vm: nat, c: Container, n: Nic)
    ensures !Ranked(nb, vm, c, n) ==> FindInterface(nb, vm, c, n) == Refused
  {
    hide Ranked;
  }

  // ------------------------------------------------------------ one container

  /** No broken identity entry of any VM is met before the identity of the container. */
  ghost predicate VmsReadable(nb: NetBox, c: Container) {
    forall v :: v in nb.vms && nb.vms[v].identities.Entries? ==>
      !BrokenFirst(nb.vms[v].identities.list, SourceIdentity(c.source, c.inst, "lxc", c.vmid))
  }

  lemma VmsRankedIff(nb: NetBox, c: Container)
    ensures VmRanked(nb, c) <==> VmsReadable(nb, c)
  {
    hide Scan, BrokenFirst;
    forall v | v in nb.vms && nb.vms[v].identities.Entries?
      ensures Scan(nb.vms[v].identities.list, LxcIdentity(c)).None? <==>
              BrokenFirst(nb.vms[v].identities.list, LxcIdentity(c))
    {
      ScanFails(nb.vms[v].identities.list, LxcIdentity(c));
    }
  }

  /** The VM of the container: the one of the cluster that fits best, alone. */
  ghost predicate VmIs(nb: NetBox, cluster: nat, c: Container, v: nat) {
    && VmsReadable(nb, c)
    && v in nb.vms && nb.vms[v].cluster == Some(cluster) && VmFit(nb.vms[v].identities, c) > 0
    && forall q :: q in nb.vms && q != v ==> VmFit(nb.vms[q].identities, c) < VmFit(nb.vms[v].identities, c)
  }

  lemma VmIsFound(nb: NetBox, cluster: nat, c: Container, v: nat)
    ensures FindVm(nb, cluster, c) == Some(v) <==> VmIs(nb, cluster, c, v)
  {
    hide FindVm, VmFit, VmRanked, VmsReadable;
    VmsRankedIff(nb, c);
    VmFoundIff(nb, cluster, c, v);
  }

  predicate SameDisplay(c: Container, a: Nic, b: Nic) {
    Fold(DisplayName(c.nics, a)) == Fold(DisplayName(c.nics, b))
  }

  /** Another row of the VM has the display name of the interface. */
  ghost predicate Displaces(nb: NetBox, vm: nat, c: Container, n: Nic, row: Option<nat>) {
    exists r :: r in nb.interfaces && nb.interfaces[r].vm == Some(vm) && row != Some(r)
                && Fold(nb.interfaces[r].name) == Fold(DisplayName(c.nics, n))
  }

  ghost predicate Fits(nb: NetBox, vm: nat, c: Container, n: Nic) {
    exists row :: NicClear(nb, vm, c, n, row) && !Displaces(nb, vm, c, n, row)
  }

  /** Display names differ, and each interface finds what it needs without displacing another row. */
  ghost predicate ContainerClear(nb: NetBox, vm: nat, c: Container) {
    && (forall i, j :: 0 <= i < j < |c.nics| ==> !SameDisplay(c, c.nics[i], c.nics[j]))
    && forall n :: n in c.nics ==> Fits(nb, vm, c, n)
  }

  ghost predicate NamesFit(nb: NetBox, vm: nat, c: Container, n: Nic) {
    forall r :: r in Rows(nb, vm) && Fold(nb.interfaces[r].name) == Fold(Display(c, n)) ==>
      FindInterface(nb, vm, c, n) == At(r)
  }

  lemma FitsIff(nb: NetBox, vm: nat, c: Container, n: Nic)
    ensures Fits(nb, vm, c, n) <==> NicPasses(nb, vm, c, n) && NamesFit(nb, vm, c, n)
  {
    hide NicClear, NicPasses, FindInterface, Fold, DisplayName;
    NicPassesIff(nb, vm, c, n);
    forall row | NicClear(nb, vm, c, n, row)
      ensures Displaces(nb, vm, c, n, row) <==> !NamesFit(nb, vm, c, n)
    {
      DisplacesIff(nb, vm, c, n, row);
    }
  }

  lemma DisplacesIff(nb: NetBox, vm: nat, c: Container, n: Nic, row: Option<nat>)
    requires FindInterface(nb, vm, c, n) == if row.Some? then At(row.value) else Absent
    ensures Displaces(nb, vm, c, n, row) <==> !NamesFit(nb, vm, c, n)
  {
    hide FindInterface, Fold, DisplayName;
    if r :| r in nb.interfaces && nb.interfaces[r].vm == Some(vm) && row != Some(r)
            && Fold(nb.interfaces[r].name) == Fold(DisplayName(c.nics, n)) {
      assert r in Rows(nb, vm);
    }
  }

  /** A container passes exactly when it has its VM there and is clear on it. */
  lemma ContainerPassesIff(nb: NetBox, cluster: nat, c: Container)
    ensures ContainerPasses(nb, cluster, c) <==> exists v :: VmIs(nb, cluster, c, v) && ContainerClear(nb, v, c)
  {
    hide FindVm, VmIs, NicPasses, FindInterface, Fits, Fold, DisplayName;
    forall v: nat
      ensures FindVm(nb, cluster, c) == Some(v) <==> VmIs(nb, cluster, c, v)
    {
      VmIsFound(nb, cluster, c, v);
    }
    forall v: nat, n | n in c.nics
      ensures Fits(nb, v, c, n) <==> NicPasses(nb, v, c, n) && NamesFit(nb, v, c, n)
    {
      FitsIff(nb, v, c, n);
    }
    forall v: nat
      ensures NamesPass(nb, v, c) && (forall n :: n in c.nics ==> NicPasses(nb, v, c, n)) <==> ContainerClear(nb, v, c)
    {
    }
  }

  // ---------------------------------------------------------------- the batch

  predicate SharesMac(a: Nic, b: Nic) {
    MacText(a) != "" && MacText(a) == MacText(b)
  }

  predicate UsesIp(n: Nic, t: IpText, k: IpKey) {
    t.Spelled? && !Reserved(t.iface) && k == IpKey(t.iface, n.vrf)
  }

  /** An address of the one is an address of the other, in the same VRF. */
  ghost predicate SharesIp(a: Nic, b: Nic) {
    exists t, u, k :: t in a.ips && u in b.ips && UsesIp(a, t, k) && UsesIp(b, u, k)
  }

  /** The interface lists an address twice. */
  ghost predicate RepeatsIp(n: Nic) {
    exists p, q, k :: 0 <= p < q < |n.ips| && UsesIp(n, n.ips[p], k) && UsesIp(n, n.ips[q], k)
  }

  /** No MAC and no scoped address is discovered twice among the interfaces. */
  ghost predicate Apart(a: Nic, b: Nic) {
    !SharesMac(a, b) && !SharesIp(a, b)
  }

  ghost predicate NicsApart(nics: seq<Nic>) {
    && (forall i :: 0 <= i < |nics| ==> !RepeatsIp(nics[i]))
    && forall i, j :: 0 <= i < j < |nics| ==> Apart(nics[i], nics[j])
  }

  ghost predicate ContainersApart(a: Container, b: Container) {
    forall n, m :: n in a.nics && m in b.nics ==> Apart(n, m)
  }

  ghost predicate BatchApart(cs: seq<Container>) {
    && (forall i :: 0 <= i < |cs| ==> NicsApart(cs[i].nics))
    && forall i, j :: 0 <= i < j < |cs| ==> ContainersApart(cs[i], cs[j])
  }

  predicate Disjoint<T(==)>(a: seq<T>, b: seq<T>) {
    forall x :: x in a ==> x !in b
  }

  lemma NoRepeatsJoin<T>(a: seq<T>, b: seq<T>)
    ensures NoRepeats(a + b) <==> NoRepeats(a) && NoRepeats(b) && Disjoint(a, b)
  {
    var ab := a + b;
    assert forall i :: 0 <= i < |a| ==> ab[i] == a[i];
    assert forall i :: 0 <= i < |b| ==> ab[|a| + i] == b[i];
    if NoRepeats(ab) {
      forall i, j | 0 <= i < j < |b|
        ensures b[i] != b[j]
      {
        assert ab[|a| + i] != ab[|a| + j];
      }
      forall x | x in a
        ensures x !in b
      {
        var i :| 0 <= i < |a| && a[i] == x;
        forall j | 0 <= j < |b|
          ensures b[j] != x
        {
          assert ab[i] != ab[|a| + j];
        }
      }
    }
    if NoRepeats(a) && NoRepeats(b) && Disjoint(a, b) {
      forall i, j | 0 <= i < j < |ab|
        ensures ab[i] != ab[j]
      {
        if i < |a| && |a| <= j {
          assert a[i] in a && b[j - |a|] in b;
        } else if |a| <= i {
          assert b[i - |a|] != b[j - |a|];
        }
      }
    }
  }

  /** What one interface adds to the batch: its MAC and its scoped addresses. */
  function MacsOf(n: Nic): seq<string> {
    if MacText(n) != "" then [MacText(n)] else []
  }

  lemma {:induction false} KeysOf(n: Nic, ips: seq<IpText>, k: IpKey)
    ensures k in IpKeys(n, ips) <==> exists t :: t in ips && UsesIp(n, t, k)
  {
    hide Reserved;
    if ips != [] {
      KeysOf(n, ips[1..], k);
      assert ips[0] in ips && forall t :: t in ips <==> t == ips[0] || t in ips[1..];
      assert k in IpKeys(n, ips) <==> UsesIp(n, ips[0], k) || k in IpKeys(n, ips[1..]);
    }
  }

  ghost predicate RepeatsIn(n: Nic, ips: seq<IpText>) {
    exists p, q, k :: 0 <= p < q < |ips| && UsesIp(n, ips[p], k) && UsesIp(n, ips[q], k)
  }

  lemma {:induction false} KeysRepeat(n: Nic, ips: seq<IpText>)
    ensures NoRepeats(IpKeys(n, ips)) <==> !RepeatsIn(n, ips)
  {
    hide Reserved;
    if ips != [] {
      var first := if Usable(ips[0]) then [IpKey(ips[0].iface, n.vrf)] else [];
      KeysRepeat(n, ips[1..]);
      NoRepeatsJoin(first, IpKeys(n, ips[1..]));
      FirstRepeats(n, ips);
    }
  }

  lemma FirstRepeats(n: Nic, ips: seq<IpText>)
    requires ips != []
    ensures RepeatsIn(n, ips) <==>
            RepeatsIn(n, ips[1..]) || (Usable(ips[0]) && IpKey(ips[0].iface, n.vrf) in IpKeys(n, ips[1..]))
  {
    hide Reserved, IpKeys;
    var rest := ips[1..];
    forall k
      ensures k in IpKeys(n, rest) <==> exists t :: t in rest && UsesIp(n, t, k)
    {
      KeysOf(n, rest, k);
    }
    if RepeatsIn(n, ips) {
      var p, q, k :| 0 <= p < q < |ips| && UsesIp(n, ips[p], k) && UsesIp(n, ips[q], k);
      assert rest[q - 1] == ips[q] && rest[q - 1] in rest;
      if p > 0 {
        assert rest[p - 1] == ips[p];
      }
    }
    if RepeatsIn(n, rest) {
      var p, q, k :| 0 <= p < q < |rest| && UsesIp(n, rest[p], k) && UsesIp(n, rest[q], k);
      assert ips[p + 1] == rest[p] && ips[q + 1] == rest[q];
    }
    if Usable(ips[0]) && IpKey(ips[0].iface, n.vrf) in IpKeys(n, rest) {
      var k := IpKey(ips[0].iface, n.vrf);
      var t :| t in rest && UsesIp(n, t, k);
      var q :| 0 <= q < |rest| && rest[q] == t;
      assert ips[q + 1] == t && UsesIp(n, ips[0], k);
    }
  }

  lemma KeysShared(a: Nic, b: Nic)
    ensures Disjoint(Keys(a), Keys(b)) <==> !SharesIp(a, b)
  {
    hide UsesIp, IpKeys;
    forall k
      ensures k in Keys(a) <==> exists t :: t in a.ips && UsesIp(a, t, k)
      ensures k in Keys(b) <==> exists t :: t in b.ips && UsesIp(b, t, k)
    {
      KeysOf(a, a.ips, k);
      KeysOf(b, b.ips, k);
    }
    if SharesIp(a, b) {
      var t, u, k :| t in a.ips && u in b.ips && UsesIp(a, t, k) && UsesIp(b, u, k);
      assert k in Keys(a) && k in Keys(b);
    }
    if k :| k in Keys(a) && k in Keys(b) {
      var t :| t in a.ips && UsesIp(a, t, k);
      var u :| u in b.ips && UsesIp(b, u, k);
    }
  }

  lemma MacsShared(a: Nic, b: Nic)
    ensures Disjoint(MacsOf(a), MacsOf(b)) <==> !SharesMac(a, b)
  {
    hide MacText;
    if SharesMac(a, b) {
      assert MacText(a) in MacsOf(a) && MacText(a) in MacsOf(b);
    }
  }

  /** What all parts add together. */
  ghost function Flat<T, X>(parts: seq<T>, g: T -> seq<X>): seq<X> {
    if parts == [] then [] else g(parts[0]) + Flat(parts[1..], g)
  }

  lemma {:induction false} FlatMember<T(!new), X>(parts: seq<T>, g: T -> seq<X>, x: X)
    ensures x in Flat(parts, g) <==> exists n :: n in parts && x in g(n)
  {
    if parts != [] {
      FlatMember(parts[1..], g, x);
      assert forall n :: n in parts <==> n == parts[0] || n in parts[1..];
    }
  }

  ghost predicate Pairwise<T(!new), X(!new)>(parts: seq<T>, g: T -> seq<X>) {
    && (forall i :: 0 <= i < |parts| ==> NoRepeats(g(parts[i])))
    && forall i, j :: 0 <= i < j < |parts| ==> Disjoint(g(parts[i]), g(parts[j]))
  }

  lemma {:induction false} FlatApart<T(!new), X(!new)>(parts: seq<T>, g: T -> seq<X>)
    ensures NoRepeats(Flat(parts, g)) <==> Pairwise(parts, g)
  {
    hide NoRepeats, Disjoint;
    if parts == [] {
      NoneRepeats<X>();
    } else {
      var rest := parts[1..];
      FlatApart(rest, g);
      NoRepeatsJoin(g(parts[0]), Flat(rest, g));
      FirstApart(parts, g);
      assert forall i :: 0 <= i < |rest| ==> rest[i] == parts[i + 1];
      assert forall i :: 0 < i < |parts| ==> parts[i] == rest[i - 1];
    }
  }

  lemma NoneRepeats<X>()
    ensures NoRepeats<X>([])
  {
  }

  lemma FirstApart<T(!new), X(!new)>(parts: seq<T>, g: T -> seq<X>)
    requires parts != []
    ensures Disjoint(g(parts[0]), Flat(parts[1..], g)) <==>
            forall j :: 0 < j < |parts| ==> Disjoint(g(parts[0]), g(parts[j]))
  {
    hide Flat;
    var rest := parts[1..];
    assert forall i :: 0 <= i < |rest| ==> rest[i] == parts[i + 1];
    forall x
      ensures x in Flat(rest, g) <==> exists n :: n in rest && x in g(n)
    {
      FlatMember(rest, g, x);
    }
    if Disjoint(g(parts[0]), Flat(rest, g)) {
      forall j | 0 < j < |parts|
        ensures Disjoint(g(parts[0]), g(parts[j]))
      {
        assert rest[j - 1] in rest;
      }
    }
    if forall j :: 0 < j < |parts| ==> Disjoint(g(parts[0]), g(parts[j])) {
      forall x | x in g(parts[0])
        ensures x !in Flat(rest, g)
      {
        forall n | n in rest
          ensures x !in g(n)
        {
          var i :| 0 <= i < |rest| && rest[i] == n;
          assert Disjoint(g(parts[0]), g(parts[i + 1]));
        }
      }
    }
  }

  lemma MacsOfNics(c: Container, nics: seq<Nic>)
    ensures Discovered(NicJobs(c, nics)) == Flat(nics, MacsOf)
  {
    hide MacText;
    if nics != [] {
      MacsOfNics(c, nics[1..]);
      MacsOfJob(Job(c, nics[0]));
      assert NicJobs(c, nics)[1..] == NicJobs(c, nics[1..]);
    }
  }

  lemma MacsOfJob(j: Job)
    ensures MacOf(j) == MacsOf(j.n)
  {
    hide Upper, Strip;
  }

  lemma IpsOfNics(c: Container, nics: seq<Nic>)
    ensures DiscoveredIps(NicJobs(c, nics)) == Flat(nics, Keys)
  {
    hide IpKeys;
    if nics != [] {
      IpsOfNics(c, nics[1..]);
      assert NicJobs(c, nics)[1..] == NicJobs(c, nics[1..]);
    }
  }

  ghost function Within<X>(g: Nic -> seq<X>): Container -> seq<X> {
    (c: Container) => Flat(c.nics, g)
  }

  lemma {:induction false} BatchIsFlat(cs: seq<Container>)
    ensures Discovered(Jobs(cs)) == Flat(cs, Within(MacsOf))
    ensures DiscoveredIps(Jobs(cs)) == Flat(cs, Within(Keys))
  {
    hide Discovered, DiscoveredIps, NicJobs, MacsOf, Keys;
    if cs == [] {
      assert Jobs(cs) == [];
      NothingDiscovered();
    } else {
      BatchIsFlat(cs[1..]);
      var first := NicJobs(cs[0], cs[0].nics);
      DiscoveredConcat(first, Jobs(cs[1..]));
      DiscoveredIpsConcat(first, Jobs(cs[1..]));
      MacsOfNics(cs[0], cs[0].nics);
      IpsOfNics(cs[0], cs[0].nics);
    }
  }

  lemma NothingDiscovered()
    ensures Discovered([]) == [] && DiscoveredIps([]) == []
  {
  }

  ghost predicate Across<X(!new)>(a: seq<Nic>, b: seq<Nic>, g: Nic -> seq<X>) {
    forall n, m :: n in a && m in b ==> Disjoint(g(n), g(m))
  }

  lemma FlatDisjoint<X(!new)>(a: seq<Nic>, b: seq<Nic>, g: Nic -> seq<X>)
    ensures Disjoint(Flat(a, g), Flat(b, g)) <==> Across(a, b, g)
  {
    hide Flat;
    forall x
      ensures x in Flat(a, g) <==> exists n :: n in a && x in g(n)
      ensures x in Flat(b, g) <==> exists n :: n in b && x in g(n)
    {
      FlatMember(a, g, x);
      FlatMember(b, g, x);
    }
    if Disjoint(Flat(a, g), Flat(b, g)) {
      forall n, m | n in a && m in b
        ensures Disjoint(g(n), g(m))
      {
        assert forall x :: x in g(n) ==> x in Flat(a, g) && x !in Flat(b, g);
      }
    }
    if Across(a, b, g) {
      forall x | x in Flat(a, g)
        ensures x !in Flat(b, g)
      {
        var n :| n in a && x in g(n);
        assert forall m :: m in b ==> Disjoint(g(n), g(m));
      }
    }
  }

  /** No interface of the batch repeats or shares what it adds. */
  ghost predicate AllApart<X(!new)>(cs: seq<Container>, g: Nic -> seq<X>) {
    && (forall i :: 0 <= i < |cs| ==> Pairwise(cs[i].nics, g))
    && forall i, j :: 0 <= i < j < |cs| ==> Across(cs[i].nics, cs[j].nics, g)
  }

  lemma BatchFlatApart<X(!new)>(cs: seq<Container>, g: Nic -> seq<X>)
    ensures NoRepeats(Flat(cs, Within(g))) <==> AllApart(cs, g)
  {
    hide NoRepeats, Disjoint, Flat, Across;
    FlatApart(cs, Within(g));
    forall i | 0 <= i < |cs|
      ensures NoRepeats(Within(g)(cs[i])) <==> Pairwise(cs[i].nics, g)
    {
      FlatApart(cs[i].nics, g);
    }
    forall i, j | 0 <= i < j < |cs|
      ensures Disjoint(Within(g)(cs[i]), Within(g)(cs[j])) <==> Across(cs[i].nics, cs[j].nics, g)
    {
      FlatDisjoint(cs[i].nics, cs[j].nics, g);
    }
    hide Within;
  }

  lemma ApartIff(cs: seq<Container>)
    ensures AllApart(cs, MacsOf) && AllApart(cs, Keys) <==> BatchApart(cs)
  {
    hide MacsOf, Keys, Pairwise, Across, NicsApart, ContainersApart;
    forall i | 0 <= i < |cs|
      ensures Pairwise(cs[i].nics, MacsOf) && Pairwise(cs[i].nics, Keys) <==> NicsApart(cs[i].nics)
    {
      NicsApartIff(cs[i].nics);
    }
    forall i, j | 0 <= i < j < |cs|
      ensures Across(cs[i].nics, cs[j].nics, MacsOf) && Across(cs[i].nics, cs[j].nics, Keys) <==>
              ContainersApart(cs[i], cs[j])
    {
      ContainersApartIff(cs[i], cs[j]);
    }
  }

  lemma NicsApartIff(nics: seq<Nic>)
    ensures Pairwise(nics, MacsOf) && Pairwise(nics, Keys) <==> NicsApart(nics)
  {
    hide MacsOf, Keys, Apart, RepeatsIp, Disjoint, NoRepeats;
    forall i | 0 <= i < |nics|
      ensures NoRepeats(MacsOf(nics[i])) && (NoRepeats(Keys(nics[i])) <==> !RepeatsIp(nics[i]))
    {
      OwnRepeats(nics[i]);
    }
    forall i, j | 0 <= i < j < |nics|
      ensures Disjoint(MacsOf(nics[i]), MacsOf(nics[j])) && Disjoint(Keys(nics[i]), Keys(nics[j])) <==>
              Apart(nics[i], nics[j])
    {
      NicApartIff(nics[i], nics[j]);
    }
  }

  lemma ContainersApartIff(a: Container, b: Container)
    ensures Across(a.nics, b.nics, MacsOf) && Across(a.nics, b.nics, Keys) <==> ContainersApart(a, b)
  {
    hide MacsOf, Keys, Apart, Disjoint;
    forall n, m | n in a.nics && m in b.nics
      ensures Disjoint(MacsOf(n), MacsOf(m)) && Disjoint(Keys(n), Keys(m)) <==> Apart(n, m)
    {
      NicApartIff(n, m);
    }
  }

  lemma NicApartIff(n: Nic, m: Nic)
    ensures Disjoint(MacsOf(n), MacsOf(m)) && Disjoint(Keys(n), Keys(m)) <==> Apart(n, m)
  {
    hide MacsOf, Keys, SharesMac, SharesIp, Disjoint;
    MacsShared(n, m);
    KeysShared(n, m);
  }

  lemma OwnRepeats(n: Nic)
    ensures NoRepeats(MacsOf(n)) && (NoRepeats(Keys(n)) <==> !RepeatsIp(n))
  {
    hide UsesIp;
    KeysRepeat(n, n.ips);
  }

  /**
   The preflight accepts a batch exactly when every container has its VM in the cluster and is clear on it, and
   no MAC and no scoped address was discovered twice.
   */
  lemma BatchPassesIff(nb: NetBox, cluster: nat, cs: seq<Container>)
    ensures Passes(nb, cluster, cs) <==>
            && (forall c :: c in cs ==> exists v :: VmIs(nb, cluster, c, v) && ContainerClear(nb, v, c))
            && BatchApart(cs)
  {
    hide ContainerPasses, VmIs, ContainerClear, BatchApart, AllApart, NoRepeats, Flat, Jobs, Discovered, DiscoveredIps;
    forall c | c in cs
      ensures ContainerPasses(nb, cluster, c) <==> exists v :: VmIs(nb, cluster, c, v) && ContainerClear(nb, v, c)
    {
      ContainerPassesIff(nb, cluster, c);
    }
    BatchIsFlat(cs);
    BatchFlatApart(cs, MacsOf);
    BatchFlatApart(cs, Keys);
    ApartIff(cs);
  }
}
