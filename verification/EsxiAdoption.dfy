/** The ESXi adoption plan: classification of every discovered object and fail-closed sharing of claims. */
module EsxiAdoption {
  import opened Wrappers
  import opened Texts
  import opened SourceIdentities
  import opened EsxiRecords
  import opened EsxiNetworkIndex

  datatype Classification = Managed | SafeAdoption | ReviewRequired | Ambiguous | Unmatched | RetainedName

  datatype Conflict = ConflictingIp | ConflictingMac | ExistingIdentity

  datatype Evidence = Evidence(
    objectId: nat, exactName: bool, hardware: bool, ips: set<Address>, macs: set<string>,
    conflicts: set<Conflict>, identities: IdentityField)

  datatype Item = Item(
    kind: Kind, name: string, identity: SourceIdentity, classification: Classification,
    candidates: seq<Evidence>, selected: Option<nat>)

  /** The configured site and cluster. */
  datatype Target = Target(site: nat, cluster: nat)

  predicate InTarget(t: Target, k: Kind, o: Parent) {
    if k.VmKind? then o.cluster == Some(t.cluster)
    else o.site == Some(t.site) && (o.cluster == Some(t.cluster) || (o.cluster.None? && o.provider))
  }

  /** `_contains_v2_identity`. */
  predicate ContainsV2(f: IdentityField) {
    match f
    case NoIdentities => false
    case NotList => true
    case Entries(list) => exists e :: e in list && (e.NotDict? || e.V2? || e.BrokenV2?)
  }

  // -------------------------------------------------------- one classification

  /** Records carrying the identity; `None` is an invalid identity record met on the way. */
  function Carriers(rs: seq<Parent>, id: SourceIdentity): Option<seq<Parent>> {
    if rs == [] then Some([])
    else
      var last := rs[|rs| - 1];
      match (Carriers(rs[..|rs| - 1], id), MatchRank(last.identities, id, "", false))
      case (Some(found), Some(rank)) => Some(if rank == V2_MATCH then found + [last] else found)
      case _ => None
  }

  function WithId(rs: seq<Parent>, id: nat): seq<Parent> {
    if rs == [] then []
    else
      var last := rs[|rs| - 1];
      WithId(rs[..|rs| - 1], id) + (if last.id == id then [last] else [])
  }

  /** The provider's hardware match, consulted for unmanaged hosts. */
  function ByHardware(rs: seq<Parent>, l: Live): Option<seq<Parent>> {
    if l.LiveVm? then Some([])
    else match l.host.hardware
      case NoMatch => Some([])
      case HardwareRefused => None
      case HardwareOf(d) => Some(WithId(rs, d))
  }

  function Proof(o: Parent, hardware: bool): Evidence {
    Evidence(o.id, false, hardware, {}, {}, {}, o.identities)
  }

  function Proofs(rs: seq<Parent>, hardware: bool): seq<Evidence> {
    seq(|rs|, i requires 0 <= i < |rs| => Proof(rs[i], hardware))
  }

  /** Evidence linking a live object to one record, if its name or network matches. */
  function Correlate(l: Live, o: Parent, n: Network): Option<Evidence> {
    var live := LiveNetwork(l);
    var exact := Fold(o.name) == Fold(NameOf(l));
    var ips, macs := live.ips * n.ips, live.macs * n.macs;
    if !exact && ips == {} && macs == {} then None
    else Some(Evidence(o.id, exact, false, ips, macs,
                       (if live.ips != {} && n.ips != {} && ips == {} then {ConflictingIp} else {})
                       + (if live.macs != {} && n.macs != {} && macs == {} then {ConflictingMac} else {})
                       + (if ContainsV2(o.identities) then {ExistingIdentity} else {}),
                       o.identities))
  }

  ghost function Correlated(s: Snapshot, t: Target, l: Live, rs: seq<Parent>): seq<Evidence> {
    if rs == [] then []
    else
      var last := rs[|rs| - 1];
      var e := if InTarget(t, KindOf(l), last) then Correlate(l, last, NetworkOf(s, KindOf(l), last)) else None;
      Correlated(s, t, l, rs[..|rs| - 1]) + (if e.Some? then [e.value] else [])
  }

  predicate Unsafe(es: seq<Evidence>) {
    exists e :: e in es && e.conflicts != {}
  }

  /** The verdict once the managing records and the correlated candidates are known. */
  function Verdict(t: Target, inst: string, l: Live, managed: seq<Parent>, hardware: bool, es: seq<Evidence>): Item {
    var item := Item(KindOf(l), NameOf(l), IdentityOf(inst, l), Ambiguous, [], None);
    if managed != [] then
      if |managed| == 1 && InTarget(t, KindOf(l), managed[0])
      then item.(classification := Managed, candidates := Proofs(managed, hardware), selected := Some(managed[0].id))
      else item.(candidates := Proofs(managed, hardware))
    else if es == [] then item.(classification := Unmatched)
    else if |es| == 1 && !Unsafe(es) then
      item.(classification := if es[0].ips != {} || es[0].macs != {} then SafeAdoption else ReviewRequired,
            candidates := es, selected := Some(es[0].objectId))
    else item.(candidates := es)
  }

  /** `_classify`; `None` is a refused plan. */
  ghost function Classify(s: Snapshot, t: Target, inst: string, l: Live): Option<Item> {
    var rs := Parents(s, KindOf(l));
    match Carriers(rs, IdentityOf(inst, l))
    case None => None
    case Some(managed) =>
      if managed != [] then Some(Verdict(t, inst, l, managed, false, []))
      else match ByHardware(rs, l)
        case None => None
        case Some(found) => Some(Verdict(t, inst, l, found, true, Correlated(s, t, l, rs)))
  }

  // ------------------------------------------------------------- shared claims

  predicate Claims(item: Item, k: Kind, id: nat) {
    item.kind == k && exists e :: e in item.candidates && e.objectId == id
  }

  /** Another item of the same kind lists one of the item's candidates. */
  predicate Contested(items: seq<Item>, i: nat)
    requires i < |items|
  {
    exists j, e :: 0 <= j < |items| && j != i && e in items[i].candidates && Claims(items[j], items[i].kind, e.objectId)
  }

  /** `_mark_shared_claims_ambiguous`. */
  function Marked(items: seq<Item>): seq<Item> {
    seq(|items|, i requires 0 <= i < |items| =>
      if Contested(items, i) then items[i].(classification := Ambiguous, selected := None) else items[i])
  }

  /** A name retained by a vanished object of the same source. */
  predicate Retained(item: Item, live: set<SourceIdentity>) {
    && item.kind.VmKind? && item.classification == Ambiguous && |item.candidates| == 1
    && var c := item.candidates[0];
       && c.exactName && !c.hardware && c.ips == {} && c.macs == {}
       && ExistingIdentity in c.conflicts
       && c.identities.Entries? && |c.identities.list| == 1 && c.identities.list[0].V2?
       && var id := c.identities.list[0].id;
          id.source == item.identity.source && id.inst == item.identity.inst && id.kind == "vm" && id !in live
  }

  /** The recorded identities of a sole candidate are parsed before they are judged. */
  predicate Readable(item: Item) {
    item.kind.VmKind? && item.classification == Ambiguous && |item.candidates| == 1
      && item.candidates[0].identities.Entries? ==>
      BrokenV2 !in item.candidates[0].identities.list
  }

  function Isolate(item: Item, live: set<SourceIdentity>): Item {
    if Retained(item, live) then item.(classification := RetainedName) else item
  }

  // ------------------------------------------------------------------- plan

  /** Every recorded host identity of this source is still discovered. */
  predicate HostsStillThere(devices: seq<Parent>, inst: string, hosts: seq<Host>) {
    forall d, e :: d in devices && d.identities.Entries? && e in d.identities.list ==> StillThere(e, inst, hosts)
  }

  predicate StillThere(e: Entry, inst: string, hosts: seq<Host>) {
    && e != BrokenV2
    && (e.V2? && e.id.source == "esxi" && e.id.inst == inst && e.id.kind == "host" ==>
      exists h :: h in hosts && h.sourceId == e.id.externalId)
  }

  function LiveIds(inst: string, ls: seq<Live>): set<SourceIdentity> {
    set l | l in ls && l.LiveVm? :: IdentityOf(inst, l)
  }

  ghost function Classified(s: Snapshot, t: Target, inst: string, ls: seq<Live>): Option<seq<Item>> {
    if ls == [] then Some([])
    else match (Classified(s, t, inst, ls[..|ls| - 1]), Classify(s, t, inst, ls[|ls| - 1]))
      case (Some(items), Some(item)) => Some(items + [item])
      case _ => None
  }

  /** `build_esxi_adoption_plan` on the resolved target: one item per discovered object, in visiting order. */
  ghost function AdoptionItems(s: Snapshot, t: Target, inst: string, hosts: seq<Host>): Option<seq<Item>> {
    if !HostsStillThere(s.devices, inst, hosts) then None
    else match Classified(s, t, inst, Visits(hosts))
      case None => None
      case Some(items) =>
        var marked := Marked(items);
        if exists item :: item in marked && !Readable(item) then None
        else Some(seq(|marked|, i requires 0 <= i < |marked| => Isolate(marked[i], LiveIds(inst, Visits(hosts)))))
  }

  lemma {:induction false} ClassifiedAt(s: Snapshot, t: Target, inst: string, ls: seq<Live>, i: nat)
    requires Classified(s, t, inst, ls).Some? && i < |ls|
    ensures |Classified(s, t, inst, ls).value| == |ls|
    ensures Classify(s, t, inst, ls[i]) == Some(Classified(s, t, inst, ls).value[i])
  {
    hide Classify;
    if i < |ls| - 1 {
      ClassifiedAt(s, t, inst, ls[..|ls| - 1], i);
    } else if |ls| > 1 {
      ClassifiedAt(s, t, inst, ls[..|ls| - 1], 0);
    }
  }

  lemma FirstIsClaimed(item: Item)
    requires item.candidates != []
    ensures Claims(item, item.kind, item.candidates[0].objectId)
  {
  }

  /** A selected object is the item's sole candidate, and only managed or matched items select one. */
  lemma SelectedIsSole(s: Snapshot, t: Target, inst: string, l: Live)
    requires Classify(s, t, inst, l).Some?
    ensures var item := Classify(s, t, inst, l).value;
      && item.kind == KindOf(l) && item.identity == IdentityOf(inst, l)
      && (item.selected.Some? ==> |item.candidates| == 1 && item.candidates[0].objectId == item.selected.value)
      && (item.classification == Managed ==> item.selected.Some?)
      && item.classification != RetainedName
  {
  }

  /** Two virtual machines with one identity see the same managing records. */
  lemma SameIdentitySameRecords(s: Snapshot, t: Target, inst: string, a: Live, b: Live)
    requires a.LiveVm? && b.LiveVm? && IdentityOf(inst, a) == IdentityOf(inst, b)
    requires Classify(s, t, inst, a).Some? && Classify(s, t, inst, b).Some?
    requires Classify(s, t, inst, a).value.classification == Managed
    ensures Claims(Classify(s, t, inst, b).value, VmKind, Classify(s, t, inst, a).value.selected.value)
  {
    hide Carriers, Correlated;
    FirstIsClaimed(Classify(s, t, inst, b).value);
  }

  lemma {:induction false} PlanItem(s: Snapshot, t: Target, inst: string, hosts: seq<Host>, i: nat)
    requires AdoptionItems(s, t, inst, hosts).Some? && i < |Visits(hosts)|
    ensures var items := AdoptionItems(s, t, inst, hosts).value;
      var l := Visits(hosts)[i];
      && |items| == |Visits(hosts)|
      && Classify(s, t, inst, l).Some?
      && items[i].kind == KindOf(l) && items[i].identity == IdentityOf(inst, l)
      && items[i].candidates == Classify(s, t, inst, l).value.candidates
      && (items[i].selected.Some? ==> items[i].selected == Classify(s, t, inst, l).value.selected)
      && (items[i].classification == Managed ==>
        Classify(s, t, inst, l).value.classification == Managed && items[i].selected.Some?)
  {
    hide Classify, Classified, Visits, HostsStillThere, Contested, Readable;
    ClassifiedAt(s, t, inst, Visits(hosts), i);
    SelectedIsSole(s, t, inst, Visits(hosts)[i]);
  }

  /** A contested item selects nothing, in the finished plan too. */
  lemma ContestedSelectsNothing(s: Snapshot, t: Target, inst: string, hosts: seq<Host>, i: nat, j: nat, id: nat)
    requires AdoptionItems(s, t, inst, hosts).Some?
    requires i < |Visits(hosts)| && j < |Visits(hosts)| && i != j
    requires var items := AdoptionItems(s, t, inst, hosts).value;
      && |items| == |Visits(hosts)|
      && Claims(items[i], items[i].kind, id) && Claims(items[j], items[i].kind, id)
    ensures AdoptionItems(s, t, inst, hosts).value[i].selected.None?
    ensures AdoptionItems(s, t, inst, hosts).value[i].classification in {Ambiguous, RetainedName}
  {
    hide Classify, Classified, Visits, HostsStillThere, Readable, Retained;
    PlanItem(s, t, inst, hosts, i);
    PlanItem(s, t, inst, hosts, j);
    var ls := Visits(hosts);
    var items := Classified(s, t, inst, ls).value;
    ClassifiedAt(s, t, inst, ls, i);
    ClassifiedAt(s, t, inst, ls, j);
    SelectedIsSole(s, t, inst, ls[i]);
    SelectedIsSole(s, t, inst, ls[j]);
    var e :| e in items[i].candidates && e.objectId == id;
    assert Claims(items[j], items[i].kind, e.objectId);
    assert Contested(items, i);
  }

  /** No NetBox object of a kind is selected for two discovered objects. */
  lemma SelectedObjectsAreDistinct(s: Snapshot, t: Target, inst: string, hosts: seq<Host>, i: nat, j: nat)
    requires AdoptionItems(s, t, inst, hosts).Some?
    requires var items := AdoptionItems(s, t, inst, hosts).value;
      && i < |items| && j < |items| && i != j
      && items[i].kind == items[j].kind
      && items[i].selected.Some? && items[j].selected.Some?
    ensures AdoptionItems(s, t, inst, hosts).value[i].selected != AdoptionItems(s, t, inst, hosts).value[j].selected
  {
    hide AdoptionItems, Classify, Visits;
    var items := AdoptionItems(s, t, inst, hosts).value;
    PlanLength(s, t, inst, hosts);
    PlanItem(s, t, inst, hosts, i);
    PlanItem(s, t, inst, hosts, j);
    SelectedIsSole(s, t, inst, Visits(hosts)[i]);
    SelectedIsSole(s, t, inst, Visits(hosts)[j]);
    FirstIsClaimed(items[i]);
    FirstIsClaimed(items[j]);
    if items[i].selected == items[j].selected {
      ContestedSelectsNothing(s, t, inst, hosts, i, j, items[i].selected.value);
    }
  }

  lemma PlanLength(s: Snapshot, t: Target, inst: string, hosts: seq<Host>)
    requires AdoptionItems(s, t, inst, hosts).Some?
    ensures |AdoptionItems(s, t, inst, hosts).value| == |Visits(hosts)|
  {
    hide Classify, Visits, HostsStillThere, Contested, Readable;
    if Visits(hosts) != [] {
      ClassifiedAt(s, t, inst, Visits(hosts), 0);
    }
  }

  /** A virtual machine reported twice under one identity is never managed in the plan. */
  lemma RepeatedVmIsNotManaged(s: Snapshot, t: Target, inst: string, hosts: seq<Host>, i: nat, j: nat)
    requires AdoptionItems(s, t, inst, hosts).Some?
    requires i < |Visits(hosts)| && j < |Visits(hosts)| && i != j
    requires Visits(hosts)[i].LiveVm? && Visits(hosts)[j].LiveVm?
    requires IdentityOf(inst, Visits(hosts)[i]) == IdentityOf(inst, Visits(hosts)[j])
    ensures |AdoptionItems(s, t, inst, hosts).value| == |Visits(hosts)|
    ensures AdoptionItems(s, t, inst, hosts).value[i].classification != Managed
  {
    hide AdoptionItems, Classify, Visits;
    var items := AdoptionItems(s, t, inst, hosts).value;
    PlanItem(s, t, inst, hosts, i);
    PlanItem(s, t, inst, hosts, j);
    if items[i].classification == Managed {
      SelectedIsSole(s, t, inst, Visits(hosts)[i]);
      SameIdentitySameRecords(s, t, inst, Visits(hosts)[i], Visits(hosts)[j]);
      FirstIsClaimed(items[i]);
      ContestedSelectsNothing(s, t, inst, hosts, i, j, items[i].selected.value);
    }
  }

  // -------------------------------------------------------------- as it runs

  method FindCarriers(rs: seq<Parent>, id: SourceIdentity) returns (found: Option<seq<Parent>>)
    ensures found == Carriers(rs, id)
  {
    hide MatchRank;
    var list: seq<Parent> := [];
    for i := 0 to |rs|
      invariant Carriers(rs[..i], id) == Some(list)
    {
      assert rs[..i + 1][..i] == rs[..i];
      var rank := MatchRank(rs[i].identities, id, "", false);
      if rank.None? {
        CarriersStop(rs, id, i + 1);
        return None;
      }
      if rank.value == V2_MATCH {
        list := list + [rs[i]];
      }
    }
    assert rs[..|rs|] == rs;
    found := Some(list);
  }

  lemma {:induction false} CarriersStop(rs: seq<Parent>, id: SourceIdentity, n: nat)
    requires n <= |rs| && Carriers(rs[..n], id).None?
    ensures Carriers(rs, id).None?
    decreases |rs|
  {
    if n < |rs| {
      assert rs[..|rs| - 1][..n] == rs[..n];
      CarriersStop(rs[..|rs| - 1], id, n);
    } else {
      assert rs[..n] == rs;
    }
  }

  /** The candidate loop, reading networks through the memoising index. */
  method FindCandidates(index: NetworkIndex, t: Target, l: Live, rs: seq<Parent>) returns (es: seq<Evidence>)
    requires index.Valid() && rs == Parents(index.snapshot, KindOf(l))
    modifies index`networks
    ensures index.Valid()
    ensures es == Correlated(index.snapshot, t, l, rs)
  {
    hide NetworkOf, IsNetwork, Correlate, InTarget;
    es := [];
    for i := 0 to |rs|
      invariant index.Valid() && es == Correlated(index.snapshot, t, l, rs[..i])
    {
      assert rs[..i + 1][..i] == rs[..i] && rs[..i + 1][i] == rs[i];
      if InTarget(t, KindOf(l), rs[i]) {
        var n := index.ForObject(KindOf(l), rs[i]);
        NetworkOfIsNetwork(index.snapshot, KindOf(l), rs[i]);
        NetworkIsUnique(index.snapshot, KindOf(l), rs[i], n, NetworkOf(index.snapshot, KindOf(l), rs[i]));
        var e := Correlate(l, rs[i], n);
        es := es + (if e.Some? then [e.value] else []);
      }
    }
    assert rs[..|rs|] == rs;
  }

  /** `_classify` as it runs. */
  method ClassifyLive(index: NetworkIndex, s: Snapshot, t: Target, inst: string, l: Live) returns (item: Option<Item>)
    requires index.Valid() && s == index.snapshot
    modifies index`networks
    ensures index.Valid()
    ensures item == Classify(s, t, inst, l)
  {
    hide Carriers, Correlated, Verdict;
    var rs := Parents(s, KindOf(l));
    var carriers := FindCarriers(rs, IdentityOf(inst, l));
    if carriers.None? {
      return None;
    }
    if carriers.value != [] {
      return Some(Verdict(t, inst, l, carriers.value, false, []));
    }
    var found := ByHardware(rs, l);
    if found.None? {
      return None;
    }
    var es := FindCandidates(index, t, l, rs);
    item := Some(Verdict(t, inst, l, found.value, true, es));
  }

  /** `claims`: which items list an object among their candidates. */
  ghost predicate Tallied(items: seq<Item>, n: nat, claims: map<(Kind, nat), set<nat>>)
    requires n <= |items|
  {
    forall k, id: nat, i: nat {:trigger i in Get(claims, (k, id))} :: i in Get(claims, (k, id)) <==>
      0 <= i < n && Claims(items[i], k, id)
  }

  method Tally(items: seq<Item>) returns (claims: map<(Kind, nat), set<nat>>)
    ensures Tallied(items, |items|, claims)
  {
    claims := map[];
    for i := 0 to |items|
      invariant Tallied(items, i, claims)
    {
      ghost var was := claims;
      var es := items[i].candidates;
      for c := 0 to |es|
        invariant forall k, id: nat, x: nat {:trigger x in Get(claims, (k, id))} :: x in Get(claims, (k, id)) <==>
          x in Get(was, (k, id)) || (x == i && items[i].kind == k && exists d :: 0 <= d < c && es[d].objectId == id)
      {
        var key := (items[i].kind, es[c].objectId);
        ghost var before := claims;
        claims := claims[key := Get(claims, key) + {i}];
        forall k, id: nat, x: nat
          ensures x in Get(claims, (k, id)) <==> x in Get(before, (k, id)) || (x == i && (k, id) == key)
        {
        }
      }
      forall k, id: nat
        ensures (items[i].kind == k && exists d :: 0 <= d < |es| && es[d].objectId == id) <==> Claims(items[i], k, id)
      {
      }
    }
  }

  /** `_mark_shared_claims_ambiguous` as it runs. */
  method MarkShared(items: seq<Item>) returns (r: seq<Item>)
    ensures r == Marked(items)
  {
    hide Contested;
    var claims := Tally(items);
    r := [];
    for i := 0 to |items|
      invariant |r| == i && forall j :: 0 <= j < i ==> r[j] == Marked(items)[j]
    {
      var contested := exists e | e in items[i].candidates ::
        exists j | j in Get(claims, (items[i].kind, e.objectId)) :: j != i;
      ContestedByTally(items, claims, i);
      r := r + [if contested then items[i].(classification := Ambiguous, selected := None) else items[i]];
    }
  }

  lemma ContestedByTally(items: seq<Item>, claims: map<(Kind, nat), set<nat>>, i: nat)
    requires i < |items| && Tallied(items, |items|, claims)
    ensures Contested(items, i) <==> exists e | e in items[i].candidates ::
      exists j | j in Get(claims, (items[i].kind, e.objectId)) :: j != i
  {
    hide Claims;
    if Contested(items, i) {
      var j, e :| 0 <= j < |items| && j != i && e in items[i].candidates && Claims(items[j], items[i].kind, e.objectId);
      assert j in Get(claims, (items[i].kind, e.objectId));
    }
  }

  /**
   `build_esxi_adoption_plan`: one pass over hosts and their machines, then the shared-claim and
   retained-name passes.
   */
  method BuildAdoptionPlan(s: Snapshot, t: Target, inst: string, hosts: seq<Host>) returns (plan: Option<seq<Item>>)
    requires Keyed(s)
    ensures plan == AdoptionItems(s, t, inst, hosts)
  {
    hide Classify, Contested, Readable, Retained, HostsStillThere, Visits;
    if !HostsStillThere(s.devices, inst, hosts) {
      return None;
    }
    var index := new NetworkIndex(s);
    var ls := Visits(hosts);
    var items: seq<Item> := [];
    for i := 0 to |ls|
      invariant index.Valid() && index.snapshot == s && fresh(index)
      invariant Classified(s, t, inst, ls[..i]) == Some(items)
    {
      assert ls[..i + 1][..i] == ls[..i];
      var item := ClassifyLive(index, s, t, inst, ls[i]);
      if item.None? {
        ClassifiedStop(s, t, inst, ls, i + 1);
        return None;
      }
      items := items + [item.value];
    }
    assert ls[..|ls|] == ls;
    var marked := MarkShared(items);
    if exists item | item in marked :: !Readable(item) {
      return None;
    }
    plan := Some(seq(|marked|, i requires 0 <= i < |marked| => Isolate(marked[i], LiveIds(inst, ls))));
  }

  lemma {:induction false} ClassifiedStop(s: Snapshot, t: Target, inst: string, ls: seq<Live>, n: nat)
    requires n <= |ls| && Classified(s, t, inst, ls[..n]).None?
    ensures Classified(s, t, inst, ls).None?
    decreases |ls|
  {
    hide Classify;
    if n < |ls| {
      assert ls[..|ls| - 1][..n] == ls[..n];
      ClassifiedStop(s, t, inst, ls[..|ls| - 1], n);
    } else {
      assert ls[..n] == ls;
    }
  }
}
