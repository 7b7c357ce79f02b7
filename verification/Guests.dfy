/**
 Discovered containers and the presentation names of their interfaces.
 */
module Guests {
  import opened Wrappers
  import opened Texts
  import opened SourceIdentities

  /** A parsed `ipaddress.ip_interface`. */
  datatype IpInterface = IpInterface(v4: bool, address: nat, prefix: nat)

  /** Address text: unparsable, or one of the spellings of an interface; spelling 0 is the canonical one. */
  datatype IpText = NotIp(text: string) | Spelled(iface: IpInterface, spelling: nat)

  function Canonical(t: IpText): Option<IpInterface> {
    if t.Spelled? then Some(t.iface) else None
  }

  /** Loopback, link-local, multicast and unspecified addresses are never synchronised. */
  predicate Reserved(i: IpInterface) {
    if i.v4 then
      || i.address == 0
      || 0x7F000000 <= i.address < 0x80000000
      || 0xA9FE0000 <= i.address < 0xA9FF0000
      || 0xE0000000 <= i.address < 0xF0000000
    else
      || i.address <= 1
      || 0xFE800000_00000000_00000000_00000000 <= i.address < 0xFEC00000_00000000_00000000_00000000
      || 0xFF000000_00000000_00000000_00000000 <= i.address
  }

  /**
   By prefix: 0.0.0.0, 127.0.0.0/8, 169.254.0.0/16 and 224.0.0.0/4; ::, ::1, fe80::/10 and ff00::/8.
   */
  lemma ReservedIs(i: IpInterface)
    ensures i.v4 ==> (Reserved(i) <==>
              || i.address == 0 || i.address / 0x1000000 == 127 || i.address / 0x10000 == 169 * 256 + 254
              || i.address / 0x10000000 == 14)
    ensures !i.v4 && i.address < 0x1_00000000_00000000_00000000_00000000 ==>
              (Reserved(i) <==>
                || i.address == 0 || i.address == 1
                || i.address / 0x400000_00000000_00000000_00000000 == 1018
                || i.address / 0x1000000_00000000_00000000_00000000 == 255)
  {
  }

  /** `digest` stands for the first ten hexadecimal digits of the SHA-256 of the interface key. */
  datatype Nic = Nic(
    name: string, bridge: Option<string>, externalId: Option<string>, digest: string,
    vlan: Option<int>, mac: Option<string>, ips: seq<IpText>, vrf: Option<nat>, observations: Option<string>)

  datatype Container = Container(
    source: string, inst: string, vmid: string, legacyId: string, legacyOwner: bool, nics: seq<Nic>)

  /** Python truthiness of optional text. */
  predicate Given(t: Option<string>) {
    t.Some? && t.value != ""
  }

  function BaseName(n: Nic): string {
    if Given(n.bridge) then n.bridge.value else n.name
  }

  function NicKey(n: Nic): string {
    if Given(n.externalId) then n.externalId.value else n.name
  }

  function CountBase(nics: seq<Nic>, folded: string): nat {
    if nics == [] then 0
    else (if Fold(BaseName(nics[0])) == folded then 1 else 0) + CountBase(nics[1..], folded)
  }

  function Suffix(n: Nic): string {
    var key := NicKey(n);
    " / " + (if |key| <= 16 then key else if |n.digest| <= 10 then n.digest else n.digest[..10])
  }

  /** `interface_display_name`: the bridge label, with a bounded suffix when labels collide. */
  function DisplayName(nics: seq<Nic>, n: Nic): (r: string)
    ensures |r| <= 64
    ensures CountBase(nics, Fold(BaseName(n))) <= 1 && |BaseName(n)| <= 64 ==> r == BaseName(n)
    ensures CountBase(nics, Fold(BaseName(n))) > 1 || |BaseName(n)| > 64 ==>
              && |Suffix(n)| <= |r| && r[|r| - |Suffix(n)|..] == Suffix(n) && r[..|r| - |Suffix(n)|] <= BaseName(n)
              && |r| == if |BaseName(n)| + |Suffix(n)| <= 64 then |BaseName(n)| + |Suffix(n)| else 64
  {
    var base := BaseName(n);
    if CountBase(nics, Fold(base)) > 1 || |base| > 64 then
      var suffix := Suffix(n);
      (if |base| <= 64 - |suffix| then base else base[..64 - |suffix|]) + suffix
    else base
  }

  function LxcIdentity(c: Container): SourceIdentity {
    SourceIdentity(c.source, c.inst, "lxc", c.vmid)
  }

  function NicIdentity(c: Container, n: Nic): SourceIdentity {
    SourceIdentity(c.source, c.inst, "lxc-nic", c.vmid + ":" + NicKey(n))
  }

  /** The v2 identity written before provider keys were used. */
  function FormerNicIdentity(c: Container, n: Nic): SourceIdentity {
    SourceIdentity(c.source, c.inst, "lxc-nic", c.vmid + ":" + n.name)
  }

  predicate ReadsFormer(c: Container, n: Nic) {
    c.source == "proxmox" && Given(n.externalId) && n.externalId.value != n.name
  }

  function LegacyNicId(c: Container, n: Nic): string {
    c.legacyId + ":" + n.name
  }

  /** `nic_sync_identity_match_rank`. */
  function NicRank(field: IdentityField, c: Container, n: Nic): Option<nat> {
    match MatchRank(field, NicIdentity(c, n), LegacyNicId(c, n), c.legacyOwner)
    case Some(rank) =>
      if rank != NO_MATCH || !ReadsFormer(c, n) then Some(rank)
      else MatchRank(field, FormerNicIdentity(c, n), "", false)
    case None => None
  }

  /** How a stored record ranks for an interface: own identity, v1 of the legacy owner, then the former key. */
  lemma NicRankIs(field: IdentityField, c: Container, n: Nic)
    requires NicRank(field, c, n).Some?
    ensures var key := if n.externalId.Some? && n.externalId.value != "" then n.externalId.value else n.name;
            var own := SourceIdentity(c.source, c.inst, "lxc-nic", c.vmid + ":" + key);
            var former := SourceIdentity(c.source, c.inst, "lxc-nic", c.vmid + ":" + n.name);
            NicRank(field, c, n).value ==
              if !field.Entries? then NO_MATCH
              else if V2(own) in field.list then V2_MATCH
              else if c.legacyOwner && exists e :: e in field.list && e.Legacy? && e.source == c.source
                                                   && e.sourceId == c.legacyId + ":" + n.name
              then LEGACY_MATCH
              else if c.source == "proxmox" && V2(former) in field.list then V2_MATCH
              else NO_MATCH
  {
    RankMeans(field, NicIdentity(c, n), LegacyNicId(c, n), c.legacyOwner);
    if MatchRank(field, FormerNicIdentity(c, n), "", false).Some? {
      RankMeans(field, FormerNicIdentity(c, n), "", false);
    }
  }

  datatype NameField = NoNames | NotNames | Names(names: map<string, string>)

  /** `ObsNothing` covers an absent, null or empty value. */
  datatype ObservationField = ObsNothing | ObsInvalid | Observed(entries: map<string, string>)

  /** The managed custom fields of an interface, and everything else in `other`. */
  datatype CustomFields = CustomFields(
    identities: IdentityField, names: NameField, bridge: Option<string>, vlan: Option<int>,
    observations: ObservationField, other: map<string, string>)

  const EMPTY_FIELDS := CustomFields(NoIdentities, NoNames, None, None, ObsNothing, map[])

  function NameKey(id: SourceIdentity): string {
    id.source + "/" + id.inst + "/" + id.kind
  }

  /** `build_nic_custom_fields`; `None` is its `ValueError`. */
  function DesiredFields(c: Container, n: Nic, cf: CustomFields): Option<CustomFields> {
    var id := NicIdentity(c, n);
    if cf.identities.NotList? || (cf.identities.Entries? && !Mergeable(cf.identities.list)) then None
    else if cf.names.NotNames? then None
    else if n.observations.Some? && cf.observations.ObsInvalid? then None
    else
      var list := if cf.identities.Entries? then cf.identities.list else [];
      var names := if cf.names.Names? then cf.names.names else map[];
      var seen := if cf.observations.Observed? then cf.observations.entries else map[];
      Some(cf.(
        identities := Entries(MergeEntries(list, id)),
        names := Names(names[NameKey(id) := n.name]),
        bridge := n.bridge,
        vlan := n.vlan,
        observations := if n.observations.None? then cf.observations
                        else Observed(seen[c.inst := n.observations.value])))
  }

  /** Built fields are a fixed point of building them again. */
  lemma DesiredFieldsAreStable(c: Container, n: Nic, cf: CustomFields)
    requires DesiredFields(c, n, cf).Some?
    ensures DesiredFields(c, n, DesiredFields(c, n, cf).value) == DesiredFields(c, n, cf)
  {
    var id := NicIdentity(c, n);
    var list := if cf.identities.Entries? then cf.identities.list else [];
    MergeIsIdempotent(list, id);
    assert Mergeable(MergeEntries(list, id));
    var d := DesiredFields(c, n, cf).value;
    var names := if cf.names.Names? then cf.names.names else map[];
    assert names[NameKey(id) := n.name][NameKey(id) := n.name] == names[NameKey(id) := n.name];
    if n.observations.Some? {
      var seen := if cf.observations.Observed? then cf.observations.entries else map[];
      var o := seen[c.inst := n.observations.value];
      assert o[c.inst := n.observations.value] == o;
    }
  }

  /** The v2 entries of the interface namespace of one source. */
  predicate HoldsOnly(field: IdentityField, id: SourceIdentity) {
    && field.Entries?
    && V2(id) in field.list
    && forall e :: e in field.list && SameNamespace(e, id) ==> e == V2(id)
  }

  lemma DesiredFieldsHoldOnly(c: Container, n: Nic, cf: CustomFields)
    requires DesiredFields(c, n, cf).Some?
    ensures HoldsOnly(DesiredFields(c, n, cf).value.identities, NicIdentity(c, n))
    ensures Mergeable(DesiredFields(c, n, cf).value.identities.list)
  {
  }

  /** Every rank is one of the three levels, and level two means a v2 identity was read. */
  lemma NicRankLevels(field: IdentityField, c: Container, n: Nic)
    requires NicRank(field, c, n).Some?
    ensures NicRank(field, c, n).value <= V2_MATCH
  {
  }

  /** Writing another interface's identity cannot make a record a v2 match, except through the former key. */
  lemma RankOnForeignRecord(field: IdentityField, c: Container, n: Nic, id: SourceIdentity)
    requires HoldsOnly(field, id) && Mergeable(field.list)
    requires id != NicIdentity(c, n)
    requires id.source == c.source && id.inst == c.inst && id.kind == "lxc-nic"
    ensures NicRank(field, c, n).Some?
    ensures NicRank(field, c, n).value == V2_MATCH <==>
            ReadsFormer(c, n) && id == FormerNicIdentity(c, n) &&
            !(c.legacyOwner && HasLegacy(field.list, c.source, LegacyNicId(c, n)))
  {
    ScanOfClean(field.list, NicIdentity(c, n));
    ScanOfClean(field.list, FormerNicIdentity(c, n));
    assert !SameNamespace(V2(NicIdentity(c, n)), id) || V2(NicIdentity(c, n)) !in field.list;
    assert !SameNamespace(V2(FormerNicIdentity(c, n)), id) || V2(FormerNicIdentity(c, n)) !in field.list
           || FormerNicIdentity(c, n) == id;
  }

  lemma RankOnOwnRecord(field: IdentityField, c: Container, n: Nic)
    requires HoldsOnly(field, NicIdentity(c, n)) && Mergeable(field.list)
    ensures NicRank(field, c, n) == Some(V2_MATCH)
  {
    ScanOfClean(field.list, NicIdentity(c, n));
  }

  /** An unmatched record is free of broken entries and does not carry the identity. */
  lemma UnmatchedIsClean(field: IdentityField, c: Container, n: Nic)
    requires NicRank(field, c, n).Some? && NicRank(field, c, n).value < V2_MATCH
    ensures field.Entries? ==> BrokenV2 !in field.list && V2(NicIdentity(c, n)) !in field.list
  {
    if field.Entries? {
      ScanToEnd(field.list, NicIdentity(c, n));
    }
  }
}
