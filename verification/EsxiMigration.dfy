/** The ESXi migration plan: interface correlation under one managed parent each. */
module EsxiMigration {
  import opened Wrappers
  import opened Texts
  import opened SourceIdentities
  import opened Guests
  import opened EsxiRecords
  import opened EsxiNetworkIndex
  import opened EsxiAdoption

  datatype Signal = IpSignal(address: Address) | MacSignal(mac: string) | NameSignal | IdentitySignal

  datatype PortClass = MatchExisting | SafeReuse | Create | PortAmbiguous | PortConflict

  datatype PortCandidate = PortCandidate(portId: nat, signals: set<Signal>, foreign: bool)

  datatype PortItem = PortItem(name: string, classification: PortClass, candidates: seq<PortCandidate>, shared: bool)

  // --------------------------------------------------------------- ownership

  /** `ip_assignments`: the recorded owners of an address, in listing order; unassigned records are skipped. */
  function IpOwners(ips: seq<IpRecord>, a: Address): seq<Assigned> {
    if ips == [] then []
    else
      var last := ips[|ips| - 1];
      IpOwners(ips[..|ips| - 1], a)
      + (if CanonicalIp(last.address) == Some(a) && (last.owner.kind.Some? || last.owner.id.Some?) then [last.owner]
        else [])
  }

  function MacOwners(macs: seq<MacRecord>, m: string): seq<Assigned> {
    if macs == [] then []
    else
      var last := macs[|macs| - 1];
      MacOwners(macs[..|macs| - 1], m)
      + (if CanonicalEui(last.address) == Some(m) && (last.owner.kind.Some? || last.owner.id.Some?) then [last.owner]
        else [])
  }

  function Owners(s: Snapshot, v: Signal): seq<Assigned> {
    match v
    case IpSignal(a) => IpOwners(s.ips, a)
    case MacSignal(m) => MacOwners(s.macs, m)
    case _ => []
  }

  predicate IsPort(s: Snapshot, k: Kind, id: nat) {
    exists p :: p in Ports(s, k) && p.id == id
  }

  /** An assignment to an existing interface of the kind. */
  predicate Usable(s: Snapshot, k: Kind, o: Assigned) {
    o.kind == Some(PortType(k)) && o.id.Some? && IsPort(s, k, o.id.value)
  }

  function SignalsOn(s: Snapshot, k: Kind, values: set<Signal>, id: nat): set<Signal> {
    set v | v in values && Assigned(Some(PortType(k)), Some(id)) in Owners(s, v)
  }

  predicate HasConflict(s: Snapshot, k: Kind, values: set<Signal>) {
    exists v :: v in values && exists o :: o in Owners(s, v) && !Usable(s, k, o)
  }

  predicate HasDuplicate(s: Snapshot, values: set<Signal>) {
    exists v :: v in values && |Owners(s, v)| > 1
  }

  function Owned(ps: seq<Port>, parent: nat): seq<Port> {
    if ps == [] then []
    else
      var last := ps[|ps| - 1];
      Owned(ps[..|ps| - 1], parent) + (if last.parent == Some(parent) then [last] else [])
  }

  function Values(l: LivePort, extra: seq<IpText>): set<Signal> {
    (set a | a in CanonicalIps(l.ips + extra) :: IpSignal(a))
    + (if CanonicalEui(l.mac).Some? then {MacSignal(CanonicalEui(l.mac).value)} else {})
  }

  // ------------------------------------------------------------- correlation

  function Named(ps: seq<Port>, name: string): seq<Port> {
    if ps == [] then []
    else
      var last := ps[|ps| - 1];
      Named(ps[..|ps| - 1], name) + (if Fold(last.name) == Fold(name) then [last] else [])
  }

  function Hit(ps: seq<Port>, s: Snapshot, k: Kind, values: set<Signal>, foreign: bool): seq<PortCandidate> {
    if ps == [] then []
    else
      var last := ps[|ps| - 1];
      var signals := SignalsOn(s, k, values, last.id);
      Hit(ps[..|ps| - 1], s, k, values, foreign)
        + (if signals != {} then [PortCandidate(last.id, signals, foreign)] else [])
  }

  function NotOwned(ps: seq<Port>, parent: nat): seq<Port> {
    if ps == [] then []
    else
      var last := ps[|ps| - 1];
      NotOwned(ps[..|ps| - 1], parent) + (if last.parent != Some(parent) then [last] else [])
  }

  function Candidates(ps: seq<Port>, signal: Signal): seq<PortCandidate> {
    seq(|ps|, i requires 0 <= i < |ps| => PortCandidate(ps[i].id, {signal}, false))
  }

  predicate SameName(ps: seq<Port>, id: nat, name: string) {
    exists p :: p in ps && p.id == id && Fold(p.name) == Fold(name)
  }

  /** The verdict of `_correlate_interface`: identity first, then network evidence, then the exact name. */
  function Judge(l: LivePort, owned: seq<Port>, matches: seq<Port>, local: seq<PortCandidate>,
                 foreign: seq<PortCandidate>,
                 conflict: bool, duplicate: bool): PortItem {
    var names := Named(owned, l.name);
    var item := PortItem(l.name, PortAmbiguous, [], false);
    if |matches| > 1 then item.(candidates := Candidates(matches, IdentitySignal))
    else if |matches| == 1
      then item.(classification := MatchExisting, candidates := Candidates(matches, IdentitySignal))
    else if conflict || foreign != [] then item.(classification := PortConflict, candidates := local + foreign)
    else if duplicate || |local| > 1 then item.(candidates := local)
    else if |local| == 1 then
      item.(classification := if SameName(owned, local[0].portId, l.name) then MatchExisting else SafeReuse,
            candidates := local)
    else if |names| == 1 then item.(classification := MatchExisting, candidates := Candidates(names, NameSignal))
    else if |names| > 1 then item.(candidates := Candidates(names, NameSignal))
    else item.(classification := Create)
  }

  /** `_correlate_interface` on the evidence of a naive scan. */
  function CorrelatePort(s: Snapshot, k: Kind, parent: nat, l: LivePort, extra: seq<IpText>,
                         matches: seq<Port>): PortItem {
    var values := Values(l, extra);
    Judge(l, Owned(Ports(s, k), parent), matches,
          Hit(Owned(Ports(s, k), parent), s, k, values, false),
          Hit(NotOwned(Ports(s, k), parent), s, k, values, true),
          HasConflict(s, k, values), HasDuplicate(s, values))
  }

  predicate Claiming(item: PortItem) {
    item.classification == MatchExisting || item.classification == SafeReuse
  }

  predicate ClaimsPort(item: PortItem, id: nat) {
    Claiming(item) && exists c :: c in item.candidates && c.portId == id
  }

  predicate PortContested(items: seq<PortItem>, i: nat)
    requires i < |items|
  {
    && Claiming(items[i])
    && exists j, c :: 0 <= j < |items| && j != i && c in items[i].candidates && ClaimsPort(items[j], c.portId)
  }

  /** `_mark_shared_interface_claims`. */
  function MarkedPorts(items: seq<PortItem>): seq<PortItem> {
    seq(|items|, i requires 0 <= i < |items| =>
      if PortContested(items, i) then items[i].(classification := PortAmbiguous, shared := true) else items[i])
  }

  // ------------------------------------------------------------ identity match

  function PortKey(l: LivePort): string {
    if Given(l.externalId) then l.externalId.value else l.name
  }

  function PortRank(inst: string, v: Guest, l: LivePort, p: Port): Option<nat> {
    MatchRank(p.identities, SourceIdentity("esxi", inst, "vm-nic", v.externalId + ":" + PortKey(l)),
      v.legacyId + ":" + l.name, v.legacyOwner)
  }

  datatype Best = Best(rank: nat, ports: seq<Port>)

  /** `select_best_identity_matches`. */
  function SelectBest(inst: string, v: Guest, l: LivePort, ps: seq<Port>): Option<Best> {
    if ps == [] then Some(Best(NO_MATCH, []))
    else
      var last := ps[|ps| - 1];
      match (SelectBest(inst, v, l, ps[..|ps| - 1]), PortRank(inst, v, l, last))
      case (Some(best), Some(rank)) =>
        if rank > best.rank then Some(Best(rank, [last]))
        else if rank != NO_MATCH && rank == best.rank then Some(Best(rank, best.ports + [last]))
        else Some(best)
      case _ => None
  }

  // ------------------------------------------------------------------- plan

  datatype ObjectResult = ObjectResult(kind: Kind, identity: SourceIdentity, classification: Classification,
      ports: seq<PortItem>)

  /** `adoption_by_identity`: the last item recorded under an identity. */
  function ItemFor(items: seq<Item>, id: SourceIdentity): Option<Item> {
    if items == [] then None
    else if items[|items| - 1].identity == id then Some(items[|items| - 1])
    else ItemFor(items[..|items| - 1], id)
  }

  function Management(h: Host, l: LivePort): seq<IpText> {
    if l.management && h.managementIp.Some? then [h.managementIp.value] else []
  }

  function HostPorts(s: Snapshot, parent: nat, h: Host): seq<PortItem> {
    seq(|h.ports|, i requires 0 <= i < |h.ports| =>
      CorrelatePort(s, HostKind, parent, h.ports[i], Management(h, h.ports[i]), []))
  }

  function GuestPorts(s: Snapshot, inst: string, parent: nat, v: Guest, ls: seq<LivePort>): Option<seq<PortItem>> {
    if ls == [] then Some([])
    else
      var last := ls[|ls| - 1];
      match (GuestPorts(s, inst, parent, v, ls[..|ls| - 1]), SelectBest(inst, v, last, Owned(s.vmPorts, parent)))
      case (Some(items), Some(best)) => Some(items + [CorrelatePort(s, VmKind, parent, last, [], best.ports)])
      case _ => None
  }

  function PortsOf(s: Snapshot, inst: string, parent: nat, l: Live): Option<seq<PortItem>> {
    match l
    case LiveHost(h) => Some(HostPorts(s, parent, h))
    case LiveVm(v) => GuestPorts(s, inst, parent, v, v.ports)
  }

  function ResultOf(s: Snapshot, inst: string, items: seq<Item>, l: Live): Option<ObjectResult> {
    var id := IdentityOf(inst, l);
    match ItemFor(items, id)
    case None => None
    case Some(item) =>
      if item.classification != Managed || item.selected.None?
        then Some(ObjectResult(KindOf(l), id, item.classification, []))
      else match PortsOf(s, inst, item.selected.value, l)
        case None => None
        case Some(ports) => Some(ObjectResult(KindOf(l), id, Managed, MarkedPorts(ports)))
  }

  function Results(s: Snapshot, inst: string, items: seq<Item>, ls: seq<Live>): Option<seq<ObjectResult>> {
    if ls == [] then Some([])
    else match (Results(s, inst, items, ls[..|ls| - 1]), ResultOf(s, inst, items, ls[|ls| - 1]))
      case (Some(rs), Some(r)) => Some(rs + [r])
      case _ => None
  }

  /**
   `build_esxi_migration_plan`: the adoption plan reads snapshot `s`, ownership is read later as `o`.
   Host and machine results are kept in one list, told apart by `kind`.
   */
  ghost function MigrationPlan(s: Snapshot, o: Snapshot, t: Target, inst: string,
                               hosts: seq<Host>): Option<seq<ObjectResult>> {
    match AdoptionItems(s, t, inst, hosts)
    case None => None
    case Some(items) => Results(o, inst, items, Visits(hosts))
  }

  predicate DistinctHosts(hosts: seq<Host>) {
    forall i, j :: 0 <= i < j < |hosts| ==> hosts[i].sourceId != hosts[j].sourceId
  }

  /** Two discovered hosts report one id. */
  predicate SameHostId(a: Live, b: Live) {
    a.LiveHost? && b.LiveHost? && a.host.sourceId == b.host.sourceId
  }

  // ------------------------------------------------------ claims stay at home

  lemma {:induction false} OwnedPorts(ps: seq<Port>, parent: nat)
    ensures forall p :: p in Owned(ps, parent) <==> p in ps && p.parent == Some(parent)
  {
    if ps != [] {
      OwnedPorts(ps[..|ps| - 1], parent);
      assert forall p :: p in ps <==> p in ps[..|ps| - 1] || p == ps[|ps| - 1];
    }
  }

  lemma {:induction false} HitPorts(ps: seq<Port>, s: Snapshot, k: Kind, values: set<Signal>, foreign: bool)
    ensures forall c :: c in Hit(ps, s, k, values, foreign) ==> exists p :: p in ps && p.id == c.portId
  {
    hide SignalsOn;
    if ps != [] {
      HitPorts(ps[..|ps| - 1], s, k, values, foreign);
      assert forall p :: p in ps <==> p in ps[..|ps| - 1] || p == ps[|ps| - 1];
    }
  }

  lemma {:induction false} NamedPorts(ps: seq<Port>, name: string)
    ensures forall p :: p in Named(ps, name) ==> p in ps
  {
    if ps != [] {
      NamedPorts(ps[..|ps| - 1], name);
    }
  }

  lemma {:induction false} BestPorts(inst: string, v: Guest, l: LivePort, ps: seq<Port>)
    requires SelectBest(inst, v, l, ps).Some?
    ensures forall p :: p in SelectBest(inst, v, l, ps).value.ports ==> p in ps
  {
    hide PortRank;
    if ps != [] {
      BestPorts(inst, v, l, ps[..|ps| - 1]);
    }
  }

  /** A port id belongs to the parent in the ownership snapshot. */
  ghost predicate OwnedBy(s: Snapshot, k: Kind, parent: nat, id: nat) {
    exists p :: p in Ports(s, k) && p.id == id && p.parent == Some(parent)
  }

  /** Every claimed interface belongs to the managed parent. */
  lemma ClaimsAreOwned(s: Snapshot, k: Kind, parent: nat, l: LivePort, extra: seq<IpText>, matches: seq<Port>, id: nat)
    requires forall p :: p in matches ==> p in Owned(Ports(s, k), parent)
    requires ClaimsPort(CorrelatePort(s, k, parent, l, extra, matches), id)
    ensures OwnedBy(s, k, parent, id)
  {
    hide Hit, Owned, Named, Values, HasConflict, HasDuplicate, SameName, NotOwned, Ports;
    var owned := Owned(Ports(s, k), parent);
    OwnedPorts(Ports(s, k), parent);
    HitPorts(owned, s, k, Values(l, extra), false);
    NamedPorts(owned, l.name);
  }

  lemma {:induction false} GuestPortsAt(s: Snapshot, inst: string, parent: nat, v: Guest, ls: seq<LivePort>, i: nat,
                                        id: nat)
    requires GuestPorts(s, inst, parent, v, ls).Some?
    requires i < |GuestPorts(s, inst, parent, v, ls).value|
             && ClaimsPort(GuestPorts(s, inst, parent, v, ls).value[i], id)
    ensures OwnedBy(s, VmKind, parent, id)
  {
    hide CorrelatePort, SelectBest, Owned, ClaimsPort, OwnedBy;
    var init, last := ls[..|ls| - 1], ls[|ls| - 1];
    var items := GuestPorts(s, inst, parent, v, init).value;
    if i < |items| {
      GuestPortsAt(s, inst, parent, v, init, i, id);
    } else {
      BestPorts(inst, v, last, Owned(s.vmPorts, parent));
      ClaimsAreOwned(s, VmKind, parent, last, [], SelectBest(inst, v, last, Owned(s.vmPorts, parent)).value.ports, id);
    }
  }

  lemma ResultClaims(s: Snapshot, inst: string, items: seq<Item>, l: Live, i: nat, id: nat)
    requires ResultOf(s, inst, items, l).Some?
    requires i < |ResultOf(s, inst, items, l).value.ports| && ClaimsPort(ResultOf(s, inst, items, l).value.ports[i], id)
    ensures ItemFor(items, IdentityOf(inst, l)).Some?
    ensures var item := ItemFor(items, IdentityOf(inst, l)).value;
      item.classification == Managed && item.selected.Some? && OwnedBy(s, KindOf(l), item.selected.value, id)
  {
    hide CorrelatePort, GuestPorts, OwnedBy, ItemFor, PortContested;
    var item := ItemFor(items, IdentityOf(inst, l)).value;
    var ports := PortsOf(s, inst, item.selected.value, l).value;
    if l.LiveHost? {
      ClaimsAreOwned(s, HostKind, item.selected.value, l.host.ports[i], Management(l.host, l.host.ports[i]), [], id);
    } else {
      GuestPortsAt(s, inst, item.selected.value, l.vm, l.vm.ports, i, id);
    }
  }

  /** Within one parent, a marked list claims each interface once. */
  lemma MarkedClaimsOnce(items: seq<PortItem>, i: nat, j: nat, id: nat)
    requires i < |items| && j < |items| && i != j
    ensures !(ClaimsPort(MarkedPorts(items)[i], id) && ClaimsPort(MarkedPorts(items)[j], id))
  {
  }

  lemma {:induction false} ItemForFound(items: seq<Item>, id: SourceIdentity) returns (k: nat)
    requires ItemFor(items, id).Some?
    ensures k < |items| && items[k] == ItemFor(items, id).value && items[k].identity == id
  {
    if items[|items| - 1].identity == id {
      k := |items| - 1;
    } else {
      k := ItemForFound(items[..|items| - 1], id);
    }
  }

  lemma {:induction false} ResultsAt(s: Snapshot, inst: string, items: seq<Item>, ls: seq<Live>, i: nat)
    requires Results(s, inst, items, ls).Some? && i < |ls|
    ensures |Results(s, inst, items, ls).value| == |ls|
    ensures ResultOf(s, inst, items, ls[i]) == Some(Results(s, inst, items, ls).value[i])
  {
    hide ResultOf;
    if i < |ls| - 1 {
      ResultsAt(s, inst, items, ls[..|ls| - 1], i);
    } else if |ls| > 1 {
      ResultsAt(s, inst, items, ls[..|ls| - 1], 0);
    }
  }

  lemma {:induction false} VisitedHosts(hosts: seq<Host>, h: Host)
    requires LiveHost(h) in Visits(hosts)
    ensures h in hosts
  {
    var init, last := hosts[..|hosts| - 1], hosts[|hosts| - 1];
    if LiveHost(h) in Visits(init) {
      VisitedHosts(init, h);
    }
  }

  /** Distinct host ids stay distinct over the visited objects. */
  lemma {:induction false} VisitedHostsDistinct(hosts: seq<Host>, p: nat, q: nat)
    requires DistinctHosts(hosts) && p < q < |Visits(hosts)|
    requires Visits(hosts)[p].LiveHost? && Visits(hosts)[q].LiveHost?
    ensures Visits(hosts)[p].host.sourceId != Visits(hosts)[q].host.sourceId
  {
    var init, last := hosts[..|hosts| - 1], hosts[|hosts| - 1];
    var ls := Visits(init);
    if q < |ls| {
      assert Visits(hosts)[p] == ls[p] && Visits(hosts)[q] == ls[q];
      VisitedHostsDistinct(init, p, q);
    } else if p < |ls| {
      assert Visits(hosts)[p] == ls[p];
      assert q == |ls|;
      VisitedHosts(init, ls[p].host);
    }
  }

  /** One interface cannot belong to two parents. */
  lemma OneParent(s: Snapshot, k: Kind, a: nat, b: nat, id: nat)
    requires UniquePorts(Ports(s, k)) && OwnedBy(s, k, a, id) && OwnedBy(s, k, b, id)
    ensures a == b
  {
  }

  /** The items that let two different visits claim interfaces are two different items of one kind. */
  lemma ClaimantsDiffer(s: Snapshot, t: Target, inst: string, hosts: seq<Host>, p: nat, q: nat)
    requires AdoptionItems(s, t, inst, hosts).Some?
    requires p < q < |Visits(hosts)| && KindOf(Visits(hosts)[p]) == KindOf(Visits(hosts)[q])
    requires !SameHostId(Visits(hosts)[p], Visits(hosts)[q])
    requires var items := AdoptionItems(s, t, inst, hosts).value;
      forall v :: v in {p, q} ==>
        var f := ItemFor(items, IdentityOf(inst, Visits(hosts)[v]));
        f.Some? && f.value.classification == Managed && f.value.selected.Some?
    ensures var items := AdoptionItems(s, t, inst, hosts).value;
      ItemFor(items, IdentityOf(inst, Visits(hosts)[p])).value.selected
      != ItemFor(items, IdentityOf(inst, Visits(hosts)[q])).value.selected
  {
    hide AdoptionItems, Visits, ItemFor;
    var items := AdoptionItems(s, t, inst, hosts).value;
    var ls := Visits(hosts);
    PlanLength(s, t, inst, hosts);
    var a := ItemForFound(items, IdentityOf(inst, ls[p]));
    var b := ItemForFound(items, IdentityOf(inst, ls[q]));
    PlanItem(s, t, inst, hosts, a);
    PlanItem(s, t, inst, hosts, b);
    if IdentityOf(inst, ls[p]) == IdentityOf(inst, ls[q]) {
      RepeatedVmIsNotManaged(s, t, inst, hosts, a, if a == p then q else p);
    } else {
      SelectedObjectsAreDistinct(s, t, inst, hosts, a, b);
    }
  }

  predicate ClaimsAt(plan: seq<ObjectResult>, p: nat, i: nat, id: nat) {
    p < |plan| && i < |plan[p].ports| && ClaimsPort(plan[p].ports[i], id)
  }

  /** Two items that claim one interface belong to two visits of hosts with one id, or are the same item. */
  lemma ClaimedTwiceByOneId(s: Snapshot, o: Snapshot, t: Target, inst: string, hosts: seq<Host>, p: nat, i: nat,
                            q: nat, j: nat, id: nat)
    requires MigrationPlan(s, o, t, inst, hosts).Some? && UniquePorts(o.hostPorts) && UniquePorts(o.vmPorts)
    requires var plan := MigrationPlan(s, o, t, inst, hosts).value;
      ClaimsAt(plan, p, i, id) && ClaimsAt(plan, q, j, id) && plan[p].kind == plan[q].kind
    ensures |MigrationPlan(s, o, t, inst, hosts).value| == |Visits(hosts)|
    ensures (p == q && i == j) || (p != q && SameHostId(Visits(hosts)[p], Visits(hosts)[q]))
  {
    hide AdoptionItems, Visits, ResultOf, ClaimsPort, OwnedBy, UniquePorts;
    var items := AdoptionItems(s, t, inst, hosts).value;
    var ls := Visits(hosts);
    ResultsLength(o, inst, items, ls);
    ResultsAt(o, inst, items, ls, p);
    ResultsAt(o, inst, items, ls, q);
    ResultClaims(o, inst, items, ls[p], i, id);
    ResultClaims(o, inst, items, ls[q], j, id);
    ResultKind(o, inst, items, ls[p]);
    ResultKind(o, inst, items, ls[q]);
    if p != q && !SameHostId(ls[p], ls[q]) {
      ClaimantsDiffer(s, t, inst, hosts, if p < q then p else q, if p < q then q else p);
      OneParent(o, KindOf(ls[p]), ItemFor(items, IdentityOf(inst, ls[p])).value.selected.value,
                ItemFor(items, IdentityOf(inst, ls[q])).value.selected.value, id);
    } else if p == q && i != j {
      ResultMarked(o, inst, items, ls[p], i, j, id);
    }
  }

  /**
   Injectivity of interface claims over the whole plan: for distinct discovered host ids, no NetBox
   interface of a kind is the candidate of two matching or reusing items, whether the items belong
   to one parent or to two, and whatever both snapshots hold.
   */
  lemma NoInterfaceClaimedTwice(s: Snapshot, o: Snapshot, t: Target, inst: string, hosts: seq<Host>, p: nat, i: nat,
                                q: nat, j: nat, id: nat)
    requires MigrationPlan(s, o, t, inst, hosts).Some?
    requires DistinctHosts(hosts) && UniquePorts(o.hostPorts) && UniquePorts(o.vmPorts)
    requires var plan := MigrationPlan(s, o, t, inst, hosts).value;
      && p < |plan| && q < |plan| && plan[p].kind == plan[q].kind
      && i < |plan[p].ports| && j < |plan[q].ports|
      && ClaimsPort(plan[p].ports[i], id) && ClaimsPort(plan[q].ports[j], id)
    ensures p == q && i == j
  {
    hide MigrationPlan, Visits, ClaimsPort, UniquePorts, DistinctHosts;
    ClaimedTwiceByOneId(s, o, t, inst, hosts, p, i, q, j, id);
    if p != q {
      VisitedHostsDistinct(hosts, if p < q then p else q, if p < q then q else p);
    }
  }

  // ------------------------------------------------- hosts that share an id

  predicate ClaimsAlone(items: seq<PortItem>, i: nat, id: nat) {
    i < |items| && ClaimsPort(items[i], id) && !PortContested(items, i)
  }

  /** Correlated apart, both lists claim one interface that neither of them contests. */
  ghost predicate SharePort(a: seq<PortItem>, b: seq<PortItem>) {
    exists i, j, id :: ClaimsAlone(a, i, id) && ClaimsAlone(b, j, id)
  }

  /**
   Two hosts with one id are both correlated with the device of the item that was recorded last under that
   id, and their interfaces meet there.
   */
  ghost predicate BothClaim(o: Snapshot, inst: string, items: seq<Item>, a: Live, b: Live) {
    && SameHostId(a, b)
    && var item := ItemFor(items, IdentityOf(inst, a));
       && item.Some? && item.value.classification == Managed && item.value.selected.Some?
       && SharePort(HostPorts(o, item.value.selected.value, a.host), HostPorts(o, item.value.selected.value, b.host))
  }

  /** Every interface of a kind is claimed by one item of the plan at most. */
  ghost predicate SingleClaims(plan: seq<ObjectResult>) {
    forall p: nat, i: nat, q: nat, j: nat, id: nat ::
      ClaimsAt(plan, p, i, id) && ClaimsAt(plan, q, j, id) && plan[p].kind == plan[q].kind ==> p == q && i == j
  }

  lemma HostClaims(o: Snapshot, inst: string, items: seq<Item>, l: Live, i: nat, id: nat)
    requires l.LiveHost? && ResultOf(o, inst, items, l).Some?
    ensures var item := ItemFor(items, IdentityOf(inst, l));
            var ports := ResultOf(o, inst, items, l).value.ports;
            (i < |ports| && ClaimsPort(ports[i], id)) <==>
            (&& item.Some? && item.value.classification == Managed && item.value.selected.Some?
             && ClaimsAlone(HostPorts(o, item.value.selected.value, l.host), i, id))
  {
    hide ItemFor, CorrelatePort, PortContested, ClaimsPort;
    var item := ItemFor(items, IdentityOf(inst, l)).value;
    if item.classification == Managed && item.selected.Some? {
      MarkedClaim(HostPorts(o, item.selected.value, l.host), i, id);
    }
  }

  /** Marking takes exactly the contested claims away. */
  lemma MarkedClaim(items: seq<PortItem>, i: nat, id: nat)
    ensures (i < |items| && ClaimsPort(MarkedPorts(items)[i], id)) <==> ClaimsAlone(items, i, id)
  {
    hide PortContested;
  }

  /** The exact condition, for all discovered hosts: claims are single unless two hosts with one id meet. */
  lemma SingleClaimsIff(s: Snapshot, o: Snapshot, t: Target, inst: string, hosts: seq<Host>)
    requires MigrationPlan(s, o, t, inst, hosts).Some? && UniquePorts(o.hostPorts) && UniquePorts(o.vmPorts)
    ensures AdoptionItems(s, t, inst, hosts).Some?
    ensures SingleClaims(MigrationPlan(s, o, t, inst, hosts).value) <==>
            forall p, q :: 0 <= p < q < |Visits(hosts)| ==>
              !BothClaim(o, inst, AdoptionItems(s, t, inst, hosts).value, Visits(hosts)[p], Visits(hosts)[q])
  {
    hide AdoptionItems, Visits, ResultOf, ClaimsPort, UniquePorts, ItemFor, BothClaim, SingleClaims;
    var items, plan := AdoptionItems(s, t, inst, hosts).value, MigrationPlan(s, o, t, inst, hosts).value;
    var ls := Visits(hosts);
    ResultsLength(o, inst, items, ls);
    if SingleClaims(plan) {
      forall p, q | 0 <= p < q < |ls|
        ensures !BothClaim(o, inst, items, ls[p], ls[q])
      {
        if BothClaim(o, inst, items, ls[p], ls[q]) {
          ResultsAt(o, inst, items, ls, p);
          ResultsAt(o, inst, items, ls, q);
          MeetingClaims(o, inst, items, plan, ls[p], ls[q], p, q);
        }
      }
    }
    if !SingleClaims(plan) {
      var p, i, q, j, id := TwiceClaimed(plan);
      ClaimedTwiceByOneId(s, o, t, inst, hosts, p, i, q, j, id);
      ResultsAt(o, inst, items, ls, p);
      ResultsAt(o, inst, items, ls, q);
      ClaimsMeet(o, inst, items, plan, ls[p], ls[q], p, i, q, j, id);
    }
  }

  lemma TwiceClaimed(plan: seq<ObjectResult>) returns (p: nat, i: nat, q: nat, j: nat, id: nat)
    requires !SingleClaims(plan)
    ensures ClaimsAt(plan, p, i, id) && ClaimsAt(plan, q, j, id) && plan[p].kind == plan[q].kind && !(p == q && i == j)
  {
    p, i, q, j, id :| ClaimsAt(plan, p, i, id) && ClaimsAt(plan, q, j, id) && plan[p].kind == plan[q].kind
                      && !(p == q && i == j);
  }

  lemma MeetingClaims(o: Snapshot, inst: string, items: seq<Item>, plan: seq<ObjectResult>, a: Live, b: Live,
                      p: nat, q: nat)
    requires BothClaim(o, inst, items, a, b) && p < q < |plan|
    requires ResultOf(o, inst, items, a) == Some(plan[p]) && ResultOf(o, inst, items, b) == Some(plan[q])
    ensures !SingleClaims(plan)
  {
    hide ItemFor, ResultOf, ClaimsPort, PortContested, HostPorts;
    var parent := ItemFor(items, IdentityOf(inst, a)).value.selected.value;
    var i, j, id :|
      ClaimsAlone(HostPorts(o, parent, a.host), i, id) && ClaimsAlone(HostPorts(o, parent, b.host), j, id);
    HostClaims(o, inst, items, a, i, id);
    HostClaims(o, inst, items, b, j, id);
    ResultKind(o, inst, items, a);
    ResultKind(o, inst, items, b);
    assert ClaimsAt(plan, p, i, id) && ClaimsAt(plan, q, j, id);
  }

  lemma ClaimsMeet(o: Snapshot, inst: string, items: seq<Item>, plan: seq<ObjectResult>, a: Live, b: Live,
                   p: nat, i: nat, q: nat, j: nat, id: nat)
    requires ClaimsAt(plan, p, i, id) && ClaimsAt(plan, q, j, id) && SameHostId(a, b)
    requires ResultOf(o, inst, items, a) == Some(plan[p]) && ResultOf(o, inst, items, b) == Some(plan[q])
    ensures BothClaim(o, inst, items, a, b) && BothClaim(o, inst, items, b, a)
  {
    hide ItemFor, ResultOf, ClaimsPort, PortContested, HostPorts;
    HostClaims(o, inst, items, a, i, id);
    HostClaims(o, inst, items, b, j, id);
  }

  lemma ResultsLength(s: Snapshot, inst: string, items: seq<Item>, ls: seq<Live>)
    requires Results(s, inst, items, ls).Some?
    ensures |Results(s, inst, items, ls).value| == |ls|
  {
  }

  lemma ResultKind(s: Snapshot, inst: string, items: seq<Item>, l: Live)
    requires ResultOf(s, inst, items, l).Some?
    ensures ResultOf(s, inst, items, l).value.kind == KindOf(l)
  {
  }

  lemma ResultMarked(s: Snapshot, inst: string, items: seq<Item>, l: Live, i: nat, j: nat, id: nat)
    requires ResultOf(s, inst, items, l).Some?
    requires var ports := ResultOf(s, inst, items, l).value.ports; i < |ports| && j < |ports| && i != j
    ensures var ports := ResultOf(s, inst, items, l).value.ports;
            !(ClaimsPort(ports[i], id) && ClaimsPort(ports[j], id))
  {
  }

  // -------------------------------------------------------------- as it runs

  function OwnersAt<K>(m: map<K, seq<Assigned>>, k: K): seq<Assigned> {
    if k in m then m[k] else []
  }

  lemma NextIpOwner(ips: seq<IpRecord>, i: nat, a: Address)
    requires i < |ips|
    ensures var r := ips[i];
      IpOwners(ips[..i + 1], a) ==
      if CanonicalIp(r.address) == Some(a) && (r.owner.kind.Some? || r.owner.id.Some?)
        then IpOwners(ips[..i], a) + [r.owner]
      else IpOwners(ips[..i], a)
  {
    assert ips[..i + 1][..i] == ips[..i];
  }

  lemma NextMacOwner(macs: seq<MacRecord>, i: nat, a: string)
    requires i < |macs|
    ensures var r := macs[i];
      MacOwners(macs[..i + 1], a) ==
      if CanonicalEui(r.address) == Some(a) && (r.owner.kind.Some? || r.owner.id.Some?)
        then MacOwners(macs[..i], a) + [r.owner]
      else MacOwners(macs[..i], a)
  {
    assert macs[..i + 1][..i] == macs[..i];
  }

  lemma NoIpOwners()
    ensures forall a :: IpOwners([], a) == []
  {
  }

  lemma NoMacOwners()
    ensures forall a :: MacOwners([], a) == []
  {
  }

  /** The `ip_assignments` loop: the dictionary agrees with a scan for every address. */
  method IndexIpOwners(s: Snapshot) returns (m: map<Address, seq<Assigned>>)
    ensures forall a :: OwnersAt(m, a) == IpOwners(s.ips, a)
  {
    hide CanonicalIp, IpOwners;
    m := map[];
    NoIpOwners();
    for i := 0 to |s.ips|
      invariant forall a :: OwnersAt(m, a) == IpOwners(s.ips[..i], a)
    {
      var r := s.ips[i];
      var a := CanonicalIp(r.address);
      ghost var was := m;
      if a.Some? && (r.owner.kind.Some? || r.owner.id.Some?) {
        m := m[a.value := OwnersAt(m, a.value) + [r.owner]];
      }
      forall b
        ensures OwnersAt(m, b) == IpOwners(s.ips[..i + 1], b)
      {
        NextIpOwner(s.ips, i, b);
        assert OwnersAt(was, b) == IpOwners(s.ips[..i], b);
      }
    }
    assert s.ips[..|s.ips|] == s.ips;
  }

  method IndexMacOwners(s: Snapshot) returns (m: map<string, seq<Assigned>>)
    ensures forall a :: OwnersAt(m, a) == MacOwners(s.macs, a)
  {
    hide CanonicalEui, MacOwners;
    m := map[];
    NoMacOwners();
    for i := 0 to |s.macs|
      invariant forall a :: OwnersAt(m, a) == MacOwners(s.macs[..i], a)
    {
      var r := s.macs[i];
      var a := CanonicalEui(r.address);
      ghost var was := m;
      if a.Some? && (r.owner.kind.Some? || r.owner.id.Some?) {
        m := m[a.value := OwnersAt(m, a.value) + [r.owner]];
      }
      forall b
        ensures OwnersAt(m, b) == MacOwners(s.macs[..i + 1], b)
      {
        NextMacOwner(s.macs, i, b);
        assert OwnersAt(was, b) == MacOwners(s.macs[..i], b);
      }
    }
    assert s.macs[..|s.macs|] == s.macs;
  }

  /** The ownership dictionaries of one snapshot. */
  datatype Ownership = Ownership(ips: map<Address, seq<Assigned>>, macs: map<string, seq<Assigned>>)

  ghost predicate Snapshots(s: Snapshot, w: Ownership) {
    && (forall a :: OwnersAt(w.ips, a) == IpOwners(s.ips, a))
    && (forall m :: OwnersAt(w.macs, m) == MacOwners(s.macs, m))
  }

  function Assignments(w: Ownership, v: Signal): seq<Assigned> {
    match v
    case IpSignal(a) => OwnersAt(w.ips, a)
    case MacSignal(m) => OwnersAt(w.macs, m)
    case _ => []
  }

  /** The evidence gathered so far: signals per existing interface, refused assignments, repeated addresses. */
  ghost predicate Gathered(s: Snapshot, k: Kind, done: set<Signal>, hits: map<nat, set<Signal>>, conflict: bool,
                           duplicate: bool) {
    && (forall id: nat, v {:trigger v in Get(hits, id)} :: v in Get(hits, id) <==>
      IsPort(s, k, id) && v in SignalsOn(s, k, done, id))
    && (conflict <==> HasConflict(s, k, done))
    && (duplicate <==> HasDuplicate(s, done))
  }

  /** The inner loop over one address's assignments. */
  method HitsOfSignal(s: Snapshot, k: Kind, v: Signal, owners: seq<Assigned>, before: map<nat, set<Signal>>)
    returns (hits: map<nat, set<Signal>>, conflict: bool)
    ensures forall id: nat, u {:trigger u in Get(hits, id)} :: u in Get(hits, id) <==>
      u in Get(before, id) || (u == v && IsPort(s, k, id) && Assigned(Some(PortType(k)), Some(id)) in owners)
    ensures conflict <==> exists o :: o in owners && !Usable(s, k, o)
  {
    hide IsPort;
    hits, conflict := before, false;
    for i := 0 to |owners|
      invariant forall id: nat, u {:trigger u in Get(hits, id)} :: u in Get(hits, id) <==>
        u in Get(before, id) || (u == v && IsPort(s, k, id) && Assigned(Some(PortType(k)), Some(id)) in owners[..i])
      invariant conflict <==> exists o :: o in owners[..i] && !Usable(s, k, o)
    {
      Snoc(owners, i);
      var o := owners[i];
      if !Usable(s, k, o) {
        conflict := true;
      } else {
        ghost var was := hits;
        hits := hits[o.id.value := Get(hits, o.id.value) + {v}];
        forall id: nat, u
          ensures u in Get(hits, id) <==> u in Get(was, id) || (u == v && id == o.id.value)
        {
        }
      }
    }
    assert owners[..|owners|] == owners;
  }

  /** `_network_hits`. */
  method NetworkHits(s: Snapshot, w: Ownership, k: Kind, values: set<Signal>)
    returns (hits: map<nat, set<Signal>>, conflict: bool, duplicate: bool)
    requires Snapshots(s, w)
    ensures Gathered(s, k, values, hits, conflict, duplicate)
  {
    hide IsPort, Usable, IpOwners, MacOwners;
    hits, conflict, duplicate := map[], false, false;
    var rest, done := values, {};
    while rest != {}
      invariant rest + done == values && rest !! done
      invariant Gathered(s, k, done, hits, conflict, duplicate)
      decreases |rest|
    {
      var v :| v in rest;
      var owners := Assignments(w, v);
      assert owners == Owners(s, v);
      var more, refused := HitsOfSignal(s, k, v, owners, hits);
      GatherNext(s, k, done, hits, conflict, duplicate, v, more, refused);
      hits, conflict, duplicate := more, conflict || refused, duplicate || |owners| > 1;
      rest, done := rest - {v}, done + {v};
    }
    assert done == values;
  }

  lemma GatherNext(s: Snapshot, k: Kind, done: set<Signal>, hits: map<nat, set<Signal>>, conflict: bool,
                   duplicate: bool,
                   v: Signal, more: map<nat, set<Signal>>, refused: bool)
    requires Gathered(s, k, done, hits, conflict, duplicate) && v !in done
    requires forall id: nat, u {:trigger u in Get(more, id)} :: u in Get(more, id) <==>
      u in Get(hits, id) || (u == v && IsPort(s, k, id) && Assigned(Some(PortType(k)), Some(id)) in Owners(s, v))
    requires refused <==> exists o :: o in Owners(s, v) && !Usable(s, k, o)
    ensures Gathered(s, k, done + {v}, more, conflict || refused, duplicate || |Owners(s, v)| > 1)
  {
  }

  /** `claims` of `_mark_shared_interface_claims`: which claiming items list an interface. */
  ghost predicate TalliedPorts(items: seq<PortItem>, n: nat, claims: map<nat, set<nat>>)
    requires n <= |items|
  {
    forall id: nat, i: nat {:trigger i in Get(claims, id)} :: i in Get(claims, id) <==>
      i < n && ClaimsPort(items[i], id)
  }

  method TallyPorts(items: seq<PortItem>) returns (claims: map<nat, set<nat>>)
    ensures TalliedPorts(items, |items|, claims)
  {
    claims := map[];
    for i := 0 to |items|
      invariant TalliedPorts(items, i, claims)
    {
      if !Claiming(items[i]) {
        continue;
      }
      ghost var was := claims;
      var cs := items[i].candidates;
      for c := 0 to |cs|
        invariant forall id: nat, x: nat {:trigger x in Get(claims, id)} :: x in Get(claims, id) <==>
          x in Get(was, id) || (x == i && exists d :: 0 <= d < c && cs[d].portId == id)
      {
        ghost var before := claims;
        claims := claims[cs[c].portId := Get(claims, cs[c].portId) + {i}];
        forall id: nat, x: nat
          ensures x in Get(claims, id) <==> x in Get(before, id) || (x == i && id == cs[c].portId)
        {
        }
      }
      forall id: nat
        ensures (exists d :: 0 <= d < |cs| && cs[d].portId == id) <==> ClaimsPort(items[i], id)
      {
      }
    }
  }

  /** `_mark_shared_interface_claims` as it runs. */
  method MarkSharedPorts(items: seq<PortItem>) returns (r: seq<PortItem>)
    ensures r == MarkedPorts(items)
  {
    hide PortContested;
    var claims := TallyPorts(items);
    r := [];
    for i := 0 to |items|
      invariant |r| == i && forall j :: 0 <= j < i ==> r[j] == MarkedPorts(items)[j]
    {
      var contested := Claiming(items[i]) && exists c | c in items[i].candidates ::
        exists j | j in Get(claims, c.portId) :: j != i;
      PortContestedByTally(items, claims, i);
      r := r + [if contested then items[i].(classification := PortAmbiguous, shared := true) else items[i]];
    }
  }

  lemma PortContestedByTally(items: seq<PortItem>, claims: map<nat, set<nat>>, i: nat)
    requires i < |items| && TalliedPorts(items, |items|, claims)
    ensures PortContested(items, i) <==> Claiming(items[i]) && exists c | c in items[i].candidates ::
      exists j | j in Get(claims, c.portId) :: j != i
  {
    hide ClaimsPort;
    if PortContested(items, i) {
      var j, c :| 0 <= j < |items| && j != i && c in items[i].candidates && ClaimsPort(items[j], c.portId);
      assert j in Get(claims, c.portId);
    }
  }

  function HitFrom(ps: seq<Port>, hits: map<nat, set<Signal>>, foreign: bool): seq<PortCandidate> {
    if ps == [] then []
    else
      var last := ps[|ps| - 1];
      HitFrom(ps[..|ps| - 1], hits, foreign)
        + (if Get(hits, last.id) != {} then [PortCandidate(last.id, Get(hits, last.id), foreign)] else [])
  }

  lemma {:induction false} HitFromGathered(ps: seq<Port>, s: Snapshot, k: Kind, values: set<Signal>,
                                           hits: map<nat, set<Signal>>,
                                           conflict: bool, duplicate: bool, foreign: bool)
    requires Gathered(s, k, values, hits, conflict, duplicate) && forall p :: p in ps ==> p in Ports(s, k)
    ensures HitFrom(ps, hits, foreign) == Hit(ps, s, k, values, foreign)
  {
    hide SignalsOn, HasConflict, HasDuplicate;
    if ps != [] {
      var last := ps[|ps| - 1];
      HitFromGathered(ps[..|ps| - 1], s, k, values, hits, conflict, duplicate, foreign);
      assert IsPort(s, k, last.id);
      assert Get(hits, last.id) == SignalsOn(s, k, values, last.id);
    }
  }

  lemma {:induction false} NotOwnedPorts(ps: seq<Port>, parent: nat)
    ensures forall p :: p in NotOwned(ps, parent) ==> p in ps
  {
    if ps != [] {
      NotOwnedPorts(ps[..|ps| - 1], parent);
    }
  }

  /** `_correlate_interface` as it runs, reading the ownership dictionaries. */
  method CorrelateLive(s: Snapshot, w: Ownership, k: Kind, parent: nat, l: LivePort, extra: seq<IpText>,
                       matches: seq<Port>)
    returns (item: PortItem)
    requires Snapshots(s, w)
    ensures item == CorrelatePort(s, k, parent, l, extra, matches)
  {
    hide Hit, HitFrom, Judge, Owned, NotOwned, HasConflict, HasDuplicate, Values;
    var values := Values(l, extra);
    var hits, conflict, duplicate := NetworkHits(s, w, k, values);
    var owned, others := Owned(Ports(s, k), parent), NotOwned(Ports(s, k), parent);
    OwnedPorts(Ports(s, k), parent);
    NotOwnedPorts(Ports(s, k), parent);
    HitFromGathered(owned, s, k, values, hits, conflict, duplicate, false);
    HitFromGathered(others, s, k, values, hits, conflict, duplicate, true);
    item := Judge(l, owned, matches, HitFrom(owned, hits, false), HitFrom(others, hits, true), conflict, duplicate);
  }
}
