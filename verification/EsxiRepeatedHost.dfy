/**
 Two discovered hosts that report one id, only the second of which the hardware evidence matches: both are
 correlated with its device, and both claim the same interface of it.
 */
module EsxiRepeatedHost {
  import opened Wrappers
  import opened Texts
  import opened SourceIdentities
  import opened EsxiRecords
  import opened EsxiAdoption
  import opened EsxiMigration

  const VMK := LivePort("k", None, [], None, false)
  const UNMATCHED := Host("a", "x", None, NoMatch, [VMK], [])
  const MATCHED := Host("b", "x", None, HardwareOf(1), [VMK], [])
  const HOSTS := [UNMATCHED, MATCHED]

  const DEVICE := Parent(1, "d", NoIdentities, Some(3), Some(4), false, NoLink)
  const RECORDS := Snapshot([DEVICE], [], [Port(7, Some(1), "k", NoIdentities, NoLink)], [], [], [])
  const TARGET := Target(3, 4)

  lemma TwoVisits()
    ensures Visits(HOSTS) == [LiveHost(UNMATCHED), LiveHost(MATCHED)]
  {
    assert HOSTS[..1] == [UNMATCHED] && [UNMATCHED][..0] == [];
    assert Visits([UNMATCHED]) == [LiveHost(UNMATCHED)];
  }

  lemma NoCarriers(id: SourceIdentity)
    ensures Carriers([DEVICE], id) == Some([])
  {
    assert [DEVICE][..0] == [];
    assert MatchRank(DEVICE.identities, id, "", false) == Some(NO_MATCH);
    assert Carriers([], id) == Some([]);
  }

  /** The name of the first host matches nothing, and it offers no address. */
  lemma NothingCorrelates()
    ensures Correlated(RECORDS, TARGET, LiveHost(UNMATCHED), [DEVICE]) == []
  {
    hide NetworkOf;
    assert [DEVICE][..0] == [];
    assert Fold("d")[0] == 'd' && Fold("a")[0] == 'a';
    assert LiveNetwork(LiveHost(UNMATCHED)) == Network({}, {});
    assert Correlate(LiveHost(UNMATCHED), DEVICE, NetworkOf(RECORDS, HostKind, DEVICE)) == None;
  }

  lemma FirstIsUnmatched()
    ensures Classify(RECORDS, TARGET, "lab", LiveHost(UNMATCHED))
            == Some(Item(HostKind, "a", IdentityOf("lab", LiveHost(UNMATCHED)), Unmatched, [], None))
  {
    hide Carriers, Correlated;
    NoCarriers(IdentityOf("lab", LiveHost(UNMATCHED)));
    NothingCorrelates();
  }

  lemma SecondIsManaged()
    ensures var id := IdentityOf("lab", LiveHost(MATCHED));
            var item := Item(HostKind, "b", id, Managed, [Proof(DEVICE, true)], Some(1));
            Classify(RECORDS, TARGET, "lab", LiveHost(MATCHED)) == Some(item)
  {
    hide Carriers, Correlated;
    NoCarriers(IdentityOf("lab", LiveHost(MATCHED)));
    assert [DEVICE][..0] == [];
    assert WithId([DEVICE], 1) == [DEVICE];
    assert Proofs([DEVICE], true) == [Proof(DEVICE, true)];
  }

  lemma ClassifiedPair(s: Snapshot, t: Target, inst: string, a: Live, b: Live)
    requires Classify(s, t, inst, a).Some? && Classify(s, t, inst, b).Some?
    ensures Classified(s, t, inst, [a, b])
            == Some([Classify(s, t, inst, a).value, Classify(s, t, inst, b).value])
  {
    hide Classify;
    assert [a, b][..1] == [a] && [a][..0] == [];
    assert Classified(s, t, inst, []) == Some([]);
    var x, y := Classify(s, t, inst, a).value, Classify(s, t, inst, b).value;
    assert [] + [x] == [x] && [x] + [y] == [x, y];
    assert Classified(s, t, inst, [a]) == Some([x]);
  }

  lemma PlanOfTwo()
    ensures AdoptionItems(RECORDS, TARGET, "lab", HOSTS).Some?
    ensures var item := ItemFor(AdoptionItems(RECORDS, TARGET, "lab", HOSTS).value,
                                IdentityOf("lab", LiveHost(MATCHED)));
            item.Some? && item.value.classification == Managed && item.value.selected == Some(1)
  {
    hide Classify, Classified, Visits;
    TwoVisits();
    FirstIsUnmatched();
    SecondIsManaged();
    ClassifiedPair(RECORDS, TARGET, "lab", LiveHost(UNMATCHED), LiveHost(MATCHED));
    var items := Classified(RECORDS, TARGET, "lab", Visits(HOSTS)).value;
    assert !Contested(items, 0) && !Contested(items, 1);
    assert Marked(items) == items;
  }

  /** The device has one interface, which nothing but its name matches. */
  lemma DevicePorts(port: Port)
    requires RECORDS.hostPorts == [port]
    ensures Owned([port], 1) == [port] && NotOwned([port], 1) == [] && Named([port], "k") == [port]
    ensures Values(VMK, []) == {}
    ensures Hit([port], RECORDS, HostKind, {}, false) == [] && Hit([], RECORDS, HostKind, {}, true) == []
  {
    assert [port][..0] == [];
    assert CanonicalIps(VMK.ips + []) == {};
    assert SignalsOn(RECORDS, HostKind, {}, port.id) == {};
  }

  lemma NameClaims()
    ensures ClaimsPort(CorrelatePort(RECORDS, HostKind, 1, VMK, [], []), 7)
  {
    hide Owned, NotOwned, Named, Values, Hit;
    var port := RECORDS.hostPorts[0];
    DevicePorts(port);
    var found := Candidates([port], NameSignal);
    assert CorrelatePort(RECORDS, HostKind, 1, VMK, [], []) == PortItem("k", MatchExisting, found, false);
    assert found[0] in found && found[0].portId == 7;
  }

  /** Either host claims interface 7 of the device by its name. */
  lemma ClaimsByName(h: Host)
    requires h.ports == [VMK] && h.managementIp.None?
    ensures ClaimsAlone(HostPorts(RECORDS, 1, h), 0, 7)
  {
    hide CorrelatePort, ClaimsPort;
    NameClaims();
    assert HostPorts(RECORDS, 1, h) == [CorrelatePort(RECORDS, HostKind, 1, VMK, [], [])];
  }

  /** The promise that no interface is claimed twice fails for this plan. */
  lemma RepeatedHostClaimsTwice()
    ensures MigrationPlan(RECORDS, RECORDS, TARGET, "lab", HOSTS).Some?
    ensures UniquePorts(RECORDS.hostPorts) && UniquePorts(RECORDS.vmPorts)
    ensures !SingleClaims(MigrationPlan(RECORDS, RECORDS, TARGET, "lab", HOSTS).value)
  {
    hide AdoptionItems, ItemFor, SingleClaims, HostPorts, ClaimsAlone, ResultOf;
    TwoVisits();
    PlanOfTwo();
    ClaimsByName(UNMATCHED);
    ClaimsByName(MATCHED);
    var items := AdoptionItems(RECORDS, TARGET, "lab", HOSTS).value;
    TwoResults(items);
    SingleClaimsIff(RECORDS, RECORDS, TARGET, "lab", HOSTS);
    assert BothClaim(RECORDS, "lab", items, Visits(HOSTS)[0], Visits(HOSTS)[1]);
  }

  lemma TwoResults(items: seq<Item>)
    requires var item := ItemFor(items, IdentityOf("lab", LiveHost(MATCHED)));
             item.Some? && item.value.classification == Managed && item.value.selected == Some(1)
    ensures Results(RECORDS, "lab", items, Visits(HOSTS)).Some?
  {
    hide ItemFor, HostPorts, MarkedPorts;
    TwoVisits();
    var ls := Visits(HOSTS);
    assert ls[..1] == [LiveHost(UNMATCHED)] && ls[..1][..0] == [];
    assert ResultOf(RECORDS, "lab", items, ls[0]).Some? && ResultOf(RECORDS, "lab", items, ls[1]).Some?;
    assert Results(RECORDS, "lab", items, ls[..1]).Some?;
  }
}
