/**
 What the verdict on one discovered object says about the records: every classification of the adoption
 plan, stated on names, addresses and identities instead of on collected evidence.
 */
module EsxiAdoptionVerdicts {
  import opened Wrappers
  import opened Texts
  import opened SourceIdentities
  import opened EsxiRecords
  import opened EsxiAdoption

  // ------------------------------------------------------------------ evidence

  predicate PortsOffer(ps: seq<LivePort>, a: Address) {
    exists p, t :: p in ps && t in p.ips && CanonicalIp(t) == Some(a)
  }

  /** The object was discovered with the address. */
  predicate LiveIp(l: Live, a: Address) {
    match l
    case LiveHost(h) => PortsOffer(h.ports, a) || (h.managementIp.Some? && CanonicalIp(h.managementIp.value) == Some(a))
    case LiveVm(v) => PortsOffer(v.ports, a)
  }

  /** Only machines offer MACs. */
  predicate LiveMac(l: Live, m: string) {
    l.LiveVm? && exists p :: p in l.vm.ports && CanonicalEui(p.mac) == Some(m)
  }

  ghost predicate SharedIp(s: Snapshot, l: Live, o: Parent, a: Address) {
    LiveIp(l, a) && HasIp(s, KindOf(l), o, a)
  }

  ghost predicate SharedMac(s: Snapshot, l: Live, o: Parent, m: string) {
    LiveMac(l, m) && HasMac(s, KindOf(l), o, m)
  }

  ghost predicate SharesIp(s: Snapshot, l: Live, o: Parent) {
    exists a :: SharedIp(s, l, o, a)
  }

  ghost predicate SharesMac(s: Snapshot, l: Live, o: Parent) {
    exists m :: SharedMac(s, l, o, m)
  }

  /** Both sides have addresses, and none in common. */
  ghost predicate IpsDiffer(s: Snapshot, l: Live, o: Parent) {
    (exists a :: LiveIp(l, a)) && (exists a :: HasIp(s, KindOf(l), o, a)) && !SharesIp(s, l, o)
  }

  ghost predicate MacsDiffer(s: Snapshot, l: Live, o: Parent) {
    (exists m :: LiveMac(l, m)) && (exists m :: HasMac(s, KindOf(l), o, m)) && !SharesMac(s, l, o)
  }

  predicate SameNames(l: Live, o: Parent) {
    Fold(o.name) == Fold(NameOf(l))
  }

  /** Identity metadata that may belong to another synchronised object. */
  predicate Claimed(o: Parent) {
    match o.identities
    case NoIdentities => false
    case NotList => true
    case Entries(list) => exists e :: e in list && !e.Legacy? && !e.ForeignDict?
  }

  /** A record in scope: machines by cluster; hosts by site and cluster, or by site when a provider runs them. */
  predicate InScope(t: Target, k: Kind, o: Parent) {
    match k
    case VmKind => o.cluster == Some(t.cluster)
    case HostKind => o.site == Some(t.site) && (if o.cluster.None? then o.provider else o.cluster.value == t.cluster)
  }

  /** The record is in scope and shares the name, an address or a MAC with the object. */
  ghost predicate Relates(s: Snapshot, t: Target, l: Live, o: Parent) {
    && o in Parents(s, KindOf(l)) && InScope(t, KindOf(l), o)
    && (SameNames(l, o) || SharesIp(s, l, o) || SharesMac(s, l, o))
  }

  ghost predicate SoleRelated(s: Snapshot, t: Target, l: Live, o: Parent) {
    Relates(s, t, l, o) && forall q :: Relates(s, t, l, q) ==> q == o
  }

  /** Nothing speaks against taking the record over. */
  ghost predicate Harmless(s: Snapshot, l: Live, o: Parent) {
    !Claimed(o) && !IpsDiffer(s, l, o) && !MacsDiffer(s, l, o)
  }

  /** The record carries the object's own identity. */
  predicate Carrier(s: Snapshot, inst: string, l: Live, o: Parent) {
    o in Parents(s, KindOf(l)) && o.identities.Entries? && V2(IdentityOf(inst, l)) in o.identities.list
  }

  /** The provider's hardware evidence names the record. */
  predicate ByEvidence(s: Snapshot, l: Live, o: Parent) {
    o in Parents(s, KindOf(l)) && l.LiveHost? && l.host.hardware == HardwareOf(o.id)
  }

  ghost predicate Carried(s: Snapshot, inst: string, l: Live) {
    exists o :: Carrier(s, inst, l, o)
  }

  /** The records that manage the object: its carriers, or else those the hardware evidence names. */
  ghost predicate Manages(s: Snapshot, inst: string, l: Live, o: Parent) {
    if Carried(s, inst, l) then Carrier(s, inst, l, o) else ByEvidence(s, l, o)
  }

  ghost predicate HasManager(s: Snapshot, inst: string, l: Live) {
    exists o :: Manages(s, inst, l, o)
  }

  ghost predicate SoleManager(s: Snapshot, inst: string, l: Live, o: Parent) {
    Manages(s, inst, l, o) && forall q :: Manages(s, inst, l, q) ==> q == o
  }

  // -------------------------------------------------- evidence and the scan

  lemma LiveNetworkIs(l: Live)
    ensures forall a :: a in LiveNetwork(l).ips <==> LiveIp(l, a)
    ensures forall m :: m in LiveNetwork(l).macs <==> LiveMac(l, m)
  {
  }

  lemma {:induction false} CarriersAre(rs: seq<Parent>, id: SourceIdentity)
    requires UniqueIds(rs) && Carriers(rs, id).Some?
    ensures UniqueIds(Carriers(rs, id).value)
    ensures forall o :: o in Carriers(rs, id).value <==> o in rs && o.identities.Entries? && V2(id) in o.identities.list
  {
    if rs != [] {
      var init, last := rs[..|rs| - 1], rs[|rs| - 1];
      CarriersAre(init, id);
      assert forall o :: o in rs <==> o in init || o == last;
      assert forall o :: o in init ==> o.id != last.id;
      if last.identities.Entries? {
        ScanIs(last.identities.list, id);
      }
    }
  }

  lemma {:induction false} WithIdAre(rs: seq<Parent>, id: nat)
    requires UniqueIds(rs)
    ensures UniqueIds(WithId(rs, id)) && forall o :: o in WithId(rs, id) <==> o in rs && o.id == id
  {
    if rs != [] {
      var init, last := rs[..|rs| - 1], rs[|rs| - 1];
      WithIdAre(init, id);
      assert forall o :: o in rs <==> o in init || o == last;
      assert forall o :: o in init ==> o.id != last.id;
    }
  }

  /** A list without repetitions is empty, has one element, or shows two different ones. */
  lemma UniqueShape(rs: seq<Parent>)
    requires UniqueIds(rs)
    ensures |rs| == 1 ==> forall o :: o in rs <==> o == rs[0]
    ensures |rs| > 1 ==> rs[0] in rs && rs[1] in rs && rs[0] != rs[1]
    ensures rs != [] ==> rs[0] in rs
  {
  }

  lemma TargetIsScope(t: Target, k: Kind, o: Parent)
    ensures InTarget(t, k, o) <==> InScope(t, k, o)
  {
  }

  /** The evidence says of the record exactly what the snapshot says. */
  ghost predicate Tells(s: Snapshot, l: Live, o: Parent, e: Evidence) {
    && e.objectId == o.id && !e.hardware && e.identities == o.identities
    && (e.exactName <==> SameNames(l, o))
    && (forall a :: a in e.ips <==> SharedIp(s, l, o, a))
    && (forall m :: m in e.macs <==> SharedMac(s, l, o, m))
    && (ConflictingIp in e.conflicts <==> IpsDiffer(s, l, o))
    && (ConflictingMac in e.conflicts <==> MacsDiffer(s, l, o))
    && (ExistingIdentity in e.conflicts <==> Claimed(o))
  }

  lemma CorrelateTells(s: Snapshot, l: Live, o: Parent)
    ensures var e := Correlate(l, o, NetworkOf(s, KindOf(l), o));
            && (e.Some? <==> SameNames(l, o) || SharesIp(s, l, o) || SharesMac(s, l, o))
            && (e.Some? ==> Tells(s, l, o, e.value))
  {
    hide HasIp, HasMac, LiveIp, LiveMac, NetworkOf, LiveNetwork, Fold, ContainsV2, Claimed;
    LiveNetworkIs(l);
    NetworkOfIsNetwork(s, KindOf(l), o);
    var live, n := LiveNetwork(l), NetworkOf(s, KindOf(l), o);
    assert forall a :: a in live.ips * n.ips <==> SharedIp(s, l, o, a);
    assert forall m :: m in live.macs * n.macs <==> SharedMac(s, l, o, m);
    EmptyOrMember(live.ips);
    EmptyOrMember(n.ips);
    EmptyOrMember(live.ips * n.ips);
    EmptyOrMember(live.macs);
    EmptyOrMember(n.macs);
    EmptyOrMember(live.macs * n.macs);
    ClaimedIsV2(o);
  }

  lemma EmptyOrMember<T>(x: set<T>)
    ensures x != {} <==> exists e :: e in x
  {
  }

  lemma ClaimedIsV2(o: Parent)
    ensures ContainsV2(o.identities) <==> Claimed(o)
  {
  }

  /** The evidence tells of one of the related records. */
  ghost predicate TellsSome(s: Snapshot, t: Target, l: Live, rs: seq<Parent>, e: Evidence) {
    exists o :: o in rs && Relates(s, t, l, o) && Tells(s, l, o, e)
  }

  predicate IsTold(es: seq<Evidence>, o: Parent) {
    exists e :: e in es && e.objectId == o.id
  }

  /** No two candidates are the same record. */
  predicate Once(es: seq<Evidence>) {
    forall i, j :: 0 <= i < j < |es| ==> es[i].objectId != es[j].objectId
  }

  /** Every related record is told of once, and nothing else is. */
  lemma {:induction false} CorrelatedTell(s: Snapshot, t: Target, l: Live, rs: seq<Parent>)
    requires UniqueIds(rs) && forall o :: o in rs ==> o in Parents(s, KindOf(l))
    ensures Once(Correlated(s, t, l, rs))
    ensures forall e :: e in Correlated(s, t, l, rs) ==> TellsSome(s, t, l, rs, e)
    ensures forall o :: o in rs && Relates(s, t, l, o) ==> IsTold(Correlated(s, t, l, rs), o)
  {
    hide Correlated, Tells, Relates, IsTold;
    if rs == [] {
      NothingCorrelated(s, t, l);
    } else {
      var init, last := rs[..|rs| - 1], rs[|rs| - 1];
      assert forall o :: o in rs <==> o in init || o == last;
      CorrelatedTell(s, t, l, init);
      var before, all := Correlated(s, t, l, init), Correlated(s, t, l, rs);
      CorrelatedLast(s, t, l, rs);
      forall e | e in before
        ensures TellsSome(s, t, l, rs, e) && e.objectId != last.id
      {
        var o :| o in init && Relates(s, t, l, o) && Tells(s, l, o, e);
        TellsId(s, l, o, e);
        assert o in rs && o.id != last.id;
      }
      forall o | o in init && Relates(s, t, l, o)
        ensures IsTold(all, o)
      {
        ToldStill(before, all, o);
      }
      if Relates(s, t, l, last) {
        var e := all[|all| - 1];
        TellsId(s, l, last, e);
        assert TellsSome(s, t, l, rs, e);
        ToldLast(all, last);
      }
    }
  }

  lemma NothingCorrelated(s: Snapshot, t: Target, l: Live)
    ensures Correlated(s, t, l, []) == []
  {
  }

  lemma TellsId(s: Snapshot, l: Live, o: Parent, e: Evidence)
    requires Tells(s, l, o, e)
    ensures e.objectId == o.id
  {
  }

  lemma ToldStill(before: seq<Evidence>, all: seq<Evidence>, o: Parent)
    requires before <= all && IsTold(before, o)
    ensures IsTold(all, o)
  {
  }

  lemma ToldLast(all: seq<Evidence>, o: Parent)
    requires all != [] && all[|all| - 1].objectId == o.id
    ensures IsTold(all, o)
  {
  }

  lemma CorrelatedLast(s: Snapshot, t: Target, l: Live, rs: seq<Parent>)
    requires rs != [] && rs[|rs| - 1] in Parents(s, KindOf(l))
    ensures var before, all := Correlated(s, t, l, rs[..|rs| - 1]), Correlated(s, t, l, rs);
            if Relates(s, t, l, rs[|rs| - 1])
            then all != [] && all == before + [all[|all| - 1]] && Tells(s, l, rs[|rs| - 1], all[|all| - 1])
            else all == before
  {
    hide Correlate, NetworkOf, SharesIp, SharesMac, Tells, SameNames, InTarget, InScope;
    TargetIsScope(t, KindOf(l), rs[|rs| - 1]);
    CorrelateTells(s, l, rs[|rs| - 1]);
  }

  /** The candidates: none, the sole related record, or several. */
  lemma {:induction false} CorrelatedAre(s: Snapshot, t: Target, l: Live, rs: seq<Parent>)
    requires UniqueIds(rs) && forall o :: o in rs ==> o in Parents(s, KindOf(l))
    ensures var es := Correlated(s, t, l, rs);
            && (es == [] ==> forall o :: o in rs ==> !Relates(s, t, l, o))
            && (|es| == 1 ==> exists o :: o in rs && Relates(s, t, l, o) && Tells(s, l, o, es[0])
                                          && forall q :: q in rs && Relates(s, t, l, q) ==> q == o)
            && (|es| > 1 ==> exists o, q :: o in rs && q in rs && o != q && Relates(s, t, l, o) && Relates(s, t, l, q))
  {
    hide Correlate, NetworkOf, Tells, SharesIp, SharesMac, SameNames, InTarget, InScope;
    if rs != [] {
      var init, last := rs[..|rs| - 1], rs[|rs| - 1];
      assert forall o :: o in rs <==> o in init || o == last;
      CorrelatedAre(s, t, l, init);
      TargetIsScope(t, KindOf(l), last);
      CorrelateTells(s, l, last);
      var before := Correlated(s, t, l, init);
      if Relates(s, t, l, last) {
        if before == [] {
          assert Correlated(s, t, l, rs) == [Correlate(l, last, NetworkOf(s, KindOf(l), last)).value];
        } else {
          var o :| o in init && Relates(s, t, l, o);
          assert o.id != last.id;
        }
      } else {
        assert Correlated(s, t, l, rs) == before;
      }
    }
  }

  // ------------------------------------------------------------- the verdicts

  /** A managing record is listed by identity or by hardware, without further evidence. */
  ghost function ManagerEvidence(s: Snapshot, inst: string, l: Live, o: Parent): Evidence {
    Evidence(o.id, false, !Carried(s, inst, l), {}, {}, {}, o.identities)
  }

  /** The records listed for an object: those that manage it, or else those related to it. */
  ghost predicate Listed(s: Snapshot, t: Target, inst: string, l: Live, o: Parent) {
    if HasManager(s, inst, l) then Manages(s, inst, l, o) else Relates(s, t, l, o)
  }

  /** Every listed record has its one candidate, and every candidate tells the truth about a listed record. */
  ghost predicate Shows(s: Snapshot, t: Target, inst: string, l: Live, es: seq<Evidence>) {
    && Once(es) && (forall o :: Listed(s, t, inst, l, o) ==> IsTold(es, o))
    && forall e :: e in es ==> TellsListed(s, t, inst, l, e)
  }

  ghost predicate TellsListed(s: Snapshot, t: Target, inst: string, l: Live, e: Evidence) {
    exists o :: Listed(s, t, inst, l, o)
                && if HasManager(s, inst, l) then e == ManagerEvidence(s, inst, l, o) else Tells(s, l, o, e)
  }

  /** The whole verdict on one object, before claims are compared. */
  ghost predicate Verdict(s: Snapshot, t: Target, inst: string, l: Live, item: Item) {
    && item.kind == KindOf(l) && item.name == NameOf(l) && item.identity == IdentityOf(inst, l)
    && Shows(s, t, inst, l, item.candidates)
    && if HasManager(s, inst, l) then
         if exists o :: SoleManager(s, inst, l, o) && InScope(t, KindOf(l), o) then
           && item.classification == Managed && item.selected.Some?
           && exists o :: SoleManager(s, inst, l, o) && InScope(t, KindOf(l), o) && o.id == item.selected.value
         else item.classification == Ambiguous && item.selected.None?
       else if !exists o :: Relates(s, t, l, o) then
         item.classification == Unmatched && item.selected.None? && item.candidates == []
       else if exists o :: SoleRelated(s, t, l, o) && Harmless(s, l, o) then
         exists o :: SoleRelated(s, t, l, o) && Harmless(s, l, o) && item.selected == Some(o.id)
                     && |item.candidates| == 1 && Tells(s, l, o, item.candidates[0])
                     && item.classification ==
                        if SharesIp(s, l, o) || SharesMac(s, l, o) then SafeAdoption else ReviewRequired
       else
         item.classification == Ambiguous && item.selected.None?
  }

  /** The managing records found by the scan. */
  lemma ManagersAre(s: Snapshot, inst: string, l: Live)
    requires UniqueIds(Parents(s, KindOf(l)))
    requires Carriers(Parents(s, KindOf(l)), IdentityOf(inst, l)).Some?
    ensures var carriers := Carriers(Parents(s, KindOf(l)), IdentityOf(inst, l)).value;
            && (forall o :: o in carriers <==> Carrier(s, inst, l, o)) && UniqueIds(carriers)
            && (carriers != [] <==> Carried(s, inst, l))
    ensures var found := ByHardware(Parents(s, KindOf(l)), l);
            found.Some? ==> UniqueIds(found.value) && forall o :: o in found.value <==> ByEvidence(s, l, o)
  {
    hide Carriers, WithId;
    CarriersAre(Parents(s, KindOf(l)), IdentityOf(inst, l));
    var carriers := Carriers(Parents(s, KindOf(l)), IdentityOf(inst, l)).value;
    if carriers != [] {
      assert carriers[0] in carriers;
    }
    if l.LiveHost? && l.host.hardware.HardwareOf? {
      WithIdAre(Parents(s, KindOf(l)), l.host.hardware.device);
    }
  }

  /** One verdict for a non-empty list of managing records. */
  lemma ManagedVerdict(s: Snapshot, t: Target, inst: string, l: Live, managed: seq<Parent>, hardware: bool,
                       es: seq<Evidence>)
    requires UniqueIds(managed) && managed != [] && forall o :: o in managed <==> Manages(s, inst, l, o)
    requires hardware == !Carried(s, inst, l)
    ensures Verdict(s, t, inst, l, EsxiAdoption.Verdict(t, inst, l, managed, hardware, es))
  {
    hide Manages, InScope, InTarget, Relates, Carried, Shows;
    UniqueShape(managed);
    TargetIsScope(t, KindOf(l), managed[0]);
    assert Manages(s, inst, l, managed[0]);
    ProofsAre(s, t, inst, l, managed, hardware);
    if |managed| == 1 {
      assert SoleManager(s, inst, l, managed[0]);
    } else {
      assert Manages(s, inst, l, managed[1]);
    }
  }

  lemma ProofsAre(s: Snapshot, t: Target, inst: string, l: Live, managed: seq<Parent>, hardware: bool)
    requires UniqueIds(managed) && (forall o :: o in managed <==> Manages(s, inst, l, o))
    requires hardware == !Carried(s, inst, l) && HasManager(s, inst, l)
    ensures Shows(s, t, inst, l, Proofs(managed, hardware))
  {
    hide Manages, Carried, Relates, HasManager;
    var es := Proofs(managed, hardware);
    forall o | o in managed
      ensures IsTold(es, o)
    {
      var i :| 0 <= i < |managed| && managed[i] == o;
      assert es[i] in es && es[i].objectId == o.id;
    }
    forall e | e in es
      ensures TellsListed(s, t, inst, l, e)
    {
      var i :| 0 <= i < |managed| && es[i] == e;
      assert managed[i] in managed && Listed(s, t, inst, l, managed[i]);
      assert e == ManagerEvidence(s, inst, l, managed[i]);
    }
  }

  lemma RelatedShow(s: Snapshot, t: Target, inst: string, l: Live)
    requires UniqueIds(Parents(s, KindOf(l))) && !HasManager(s, inst, l)
    ensures Shows(s, t, inst, l, Correlated(s, t, l, Parents(s, KindOf(l))))
  {
    hide Manages, Relates, Correlated, Tells, HasManager, IsTold, Once, UniqueIds, Parents, ManagerEvidence;
    var rs := Parents(s, KindOf(l));
    CorrelatedTell(s, t, l, rs);
    RelatedAreParents(s, t, l);
    forall e | e in Correlated(s, t, l, rs)
      ensures TellsListed(s, t, inst, l, e)
    {
      assert TellsSome(s, t, l, rs, e);
      var o :| o in rs && Relates(s, t, l, o) && Tells(s, l, o, e);
      assert Listed(s, t, inst, l, o);
    }
  }

  lemma UnmanagedVerdict(s: Snapshot, t: Target, inst: string, l: Live, hardware: bool)
    requires UniqueIds(Parents(s, KindOf(l))) && !HasManager(s, inst, l)
    ensures var es := Correlated(s, t, l, Parents(s, KindOf(l)));
            Verdict(s, t, inst, l, EsxiAdoption.Verdict(t, inst, l, [], hardware, es))
  {
    hide Correlated, Relates, Tells, SharesIp, SharesMac, Manages, Shows;
    var rs := Parents(s, KindOf(l));
    CorrelatedAre(s, t, l, rs);
    RelatedShow(s, t, inst, l);
    RelatedAreParents(s, t, l);
    var es := Correlated(s, t, l, rs);
    if |es| == 1 {
      var o :| o in rs && Relates(s, t, l, o) && Tells(s, l, o, es[0])
               && forall q :: q in rs && Relates(s, t, l, q) ==> q == o;
      assert es == [es[0]];
      assert SoleRelated(s, t, l, o);
      SafeIsHarmless(s, l, o, es[0]);
    } else if |es| > 1 {
      var o, q :| o in rs && q in rs && o != q && Relates(s, t, l, o) && Relates(s, t, l, q);
    }
  }

  lemma RelatedAreParents(s: Snapshot, t: Target, l: Live)
    ensures forall o :: Relates(s, t, l, o) ==> o in Parents(s, KindOf(l))
  {
  }

  lemma SafeIsHarmless(s: Snapshot, l: Live, o: Parent, e: Evidence)
    requires Tells(s, l, o, e)
    ensures e.objectId == o.id
    ensures !Unsafe([e]) <==> Harmless(s, l, o)
    ensures e.ips != {} || e.macs != {} <==> SharesIp(s, l, o) || SharesMac(s, l, o)
  {
    hide SharedIp, SharedMac, Claimed, IpsDiffer, MacsDiffer;
    EmptyOrMember(e.ips);
    EmptyOrMember(e.macs);
    EmptyOrMember(e.conflicts);
    assert Unsafe([e]) <==> e.conflicts != {} by {
      assert e in [e];
    }
    if c :| c in e.conflicts {
      assert c == ConflictingIp || c == ConflictingMac || c == ExistingIdentity;
    }
  }

  /**
   The verdict on every discovered object, over all records: managed exactly by a sole managing record in
   scope; otherwise taken over exactly from the sole related record that carries no identity and contradicts
   neither addresses nor MACs, safely if and only if it shares one.
   */
  lemma VerdictIs(s: Snapshot, t: Target, inst: string, l: Live)
    requires UniqueIds(Parents(s, KindOf(l))) && Classify(s, t, inst, l).Some?
    ensures Verdict(s, t, inst, l, Classify(s, t, inst, l).value)
  {
    hide Carriers, Correlated, EsxiAdoption.Verdict, Verdict, ByHardware, Carrier, ByEvidence;
    ManagersAre(s, inst, l);
    var rs := Parents(s, KindOf(l));
    var carriers := Carriers(rs, IdentityOf(inst, l)).value;
    if carriers != [] {
      ManagedVerdict(s, t, inst, l, carriers, false, []);
    } else {
      var found := ByHardware(rs, l).value;
      if found != [] {
        ManagedVerdict(s, t, inst, l, found, true, Correlated(s, t, l, rs));
      } else {
        UnmanagedVerdict(s, t, inst, l, true);
      }
    }
  }

  // --------------------------------------------------------- the finished plan

  /** A record is listed for another discovered object of the kind too. */
  ghost predicate SharesRecord(s: Snapshot, t: Target, inst: string, ls: seq<Live>, i: nat)
    requires i < |ls|
  {
    exists j, o :: 0 <= j < |ls| && j != i && KindOf(ls[j]) == KindOf(ls[i])
                   && Listed(s, t, inst, ls[i], o) && Listed(s, t, inst, ls[j], o)
  }

  lemma ListedAreParents(s: Snapshot, t: Target, inst: string, l: Live)
    ensures forall o :: Listed(s, t, inst, l, o) ==> o in Parents(s, KindOf(l))
  {
  }

  /** The item claims exactly the listed records. */
  lemma ClaimsAreListed(s: Snapshot, t: Target, inst: string, l: Live, item: Item, id: nat)
    requires item.kind == KindOf(l) && Shows(s, t, inst, l, item.candidates)
    ensures Claims(item, KindOf(l), id) <==> exists o :: Listed(s, t, inst, l, o) && o.id == id
  {
    hide Listed, Manages, HasManager, Tells, TellsListed, Once;
    if e :| e in item.candidates && e.objectId == id {
      ToldIsListed(s, t, inst, l, e);
    }
    if o :| Listed(s, t, inst, l, o) && o.id == id {
      assert IsTold(item.candidates, o);
    }
  }

  lemma ToldIsListed(s: Snapshot, t: Target, inst: string, l: Live, e: Evidence)
    requires TellsListed(s, t, inst, l, e)
    ensures exists o :: Listed(s, t, inst, l, o) && o.id == e.objectId
  {
    hide Listed, HasManager, SharedIp, SharedMac, IpsDiffer, MacsDiffer, Claimed, SameNames;
  }

  /** Claims meet exactly where a record is listed twice. */
  lemma ContestedIsShared(s: Snapshot, t: Target, inst: string, ls: seq<Live>, items: seq<Item>, i: nat)
    requires UniqueIds(s.devices) && UniqueIds(s.vms) && |items| == |ls| && i < |ls|
    requires forall j :: 0 <= j < |ls| ==>
               items[j].kind == KindOf(ls[j]) && Shows(s, t, inst, ls[j], items[j].candidates)
    ensures Contested(items, i) <==> SharesRecord(s, t, inst, ls, i)
  {
    hide Listed, Shows, Claims;
    var k := KindOf(ls[i]);
    ListedAreParents(s, t, inst, ls[i]);
    if Contested(items, i) {
      var j, e :| 0 <= j < |items| && j != i && e in items[i].candidates && Claims(items[j], items[i].kind, e.objectId);
      SameKindClaims(items[j], k, e.objectId);
      ListedAreParents(s, t, inst, ls[j]);
      ClaimsAreListed(s, t, inst, ls[j], items[j], e.objectId);
      assert Claims(items[i], k, e.objectId) by { ItsOwnClaim(items[i], e); }
      ClaimsAreListed(s, t, inst, ls[i], items[i], e.objectId);
      var o :| Listed(s, t, inst, ls[i], o) && o.id == e.objectId;
      var q :| Listed(s, t, inst, ls[j], q) && q.id == e.objectId;
      assert o == q by { UniqueParent(Parents(s, k), o, q); }
    }
    if SharesRecord(s, t, inst, ls, i) {
      var j, o :| 0 <= j < |ls| && j != i && KindOf(ls[j]) == k
                  && Listed(s, t, inst, ls[i], o) && Listed(s, t, inst, ls[j], o);
      ClaimsAreListed(s, t, inst, ls[i], items[i], o.id);
      ClaimsAreListed(s, t, inst, ls[j], items[j], o.id);
      var e := ClaimingEvidence(items[i], o.id);
      assert Claims(items[j], items[i].kind, e.objectId);
    }
  }

  lemma SameKindClaims(item: Item, k: Kind, id: nat)
    requires Claims(item, k, id)
    ensures item.kind == k
  {
  }

  lemma ItsOwnClaim(item: Item, e: Evidence)
    requires e in item.candidates
    ensures Claims(item, item.kind, e.objectId)
  {
  }

  ghost function ClaimingEvidence(item: Item, id: nat): (e: Evidence)
    requires Claims(item, item.kind, id)
    ensures e in item.candidates && e.objectId == id
  {
    var e :| e in item.candidates && e.objectId == id;
    e
  }

  lemma UniqueParent(rs: seq<Parent>, o: Parent, q: Parent)
    requires UniqueIds(rs) && o in rs && q in rs && o.id == q.id
    ensures o == q
  {
  }

  /** The machine's name is kept by the record of a machine of this source that is no longer discovered. */
  ghost predicate KeepsName(s: Snapshot, t: Target, inst: string, ls: seq<Live>, l: Live, o: Parent) {
    && l.LiveVm? && !Carried(s, inst, l)
    && SoleRelated(s, t, l, o) && SameNames(l, o) && !SharesIp(s, l, o) && !SharesMac(s, l, o)
    && o.identities.Entries? && |o.identities.list| == 1 && o.identities.list[0].V2?
    && var id := o.identities.list[0].id;
       && id.source == "esxi" && id.inst == inst && id.kind == "vm"
       && forall v :: v in ls && v.LiveVm? ==> id.externalId != v.vm.externalId
  }

  /** How an item of the finished plan comes from its own verdict. */
  lemma FinishedItem(s: Snapshot, t: Target, inst: string, hosts: seq<Host>, i: nat)
    requires UniqueIds(s.devices) && UniqueIds(s.vms)
    requires AdoptionItems(s, t, inst, hosts).Some? && i < |Visits(hosts)|
    ensures var items, ls := AdoptionItems(s, t, inst, hosts).value, Visits(hosts);
            && |items| == |ls| && Classify(s, t, inst, ls[i]).Some?
            && var own := Classify(s, t, inst, ls[i]).value;
               var marked := if SharesRecord(s, t, inst, ls, i) then own.(classification := Ambiguous, selected := None)
                             else own;
               items[i] == if Retained(marked, LiveIds(inst, ls)) then marked.(classification := RetainedName)
                           else marked
  {
    hide Classify, Classified, Visits, HostsStillThere, Readable, Retained, SharesRecord, Contested, UniqueIds;
    var ls := Visits(hosts);
    ClassifiedAt(s, t, inst, ls, i);
    ClassifiedShow(s, t, inst, ls);
    ContestedIsShared(s, t, inst, ls, Classified(s, t, inst, ls).value, i);
  }

  /** Every classified object shows exactly its listed records. */
  lemma ClassifiedShow(s: Snapshot, t: Target, inst: string, ls: seq<Live>)
    requires UniqueIds(s.devices) && UniqueIds(s.vms) && Classified(s, t, inst, ls).Some?
    ensures |Classified(s, t, inst, ls).value| == |ls|
    ensures forall j :: 0 <= j < |ls| ==>
              && Classified(s, t, inst, ls).value[j].kind == KindOf(ls[j])
              && Shows(s, t, inst, ls[j], Classified(s, t, inst, ls).value[j].candidates)
  {
    hide Classify, Classified, Shows, UniqueIds, Manages, SoleManager, SoleRelated, Relates;
    ItemsMatch(s, t, inst, ls);
    forall j | 0 <= j < |ls|
      ensures Classified(s, t, inst, ls).value[j].kind == KindOf(ls[j])
      ensures Shows(s, t, inst, ls[j], Classified(s, t, inst, ls).value[j].candidates)
    {
      ClassifiedAt(s, t, inst, ls, j);
      VerdictIs(s, t, inst, ls[j]);
    }
  }

  /**
   The finished plan: an object that shares a listed record selects nothing; an item whose name is kept by a vanished
   machine says so; every other item is its own verdict.
   */
  lemma PlanVerdictIs(s: Snapshot, t: Target, inst: string, hosts: seq<Host>, i: nat)
    requires UniqueIds(s.devices) && UniqueIds(s.vms)
    requires AdoptionItems(s, t, inst, hosts).Some? && i < |Visits(hosts)|
    ensures |AdoptionItems(s, t, inst, hosts).value| == |Visits(hosts)|
    ensures var items, ls := AdoptionItems(s, t, inst, hosts).value, Visits(hosts);
            && (items[i].classification == RetainedName <==> exists o :: KeepsName(s, t, inst, ls, ls[i], o))
            && Shows(s, t, inst, ls[i], items[i].candidates)
            && (SharesRecord(s, t, inst, ls, i) ==>
                  items[i].selected.None? && items[i].classification in {Ambiguous, RetainedName})
            && (items[i].classification != RetainedName && !SharesRecord(s, t, inst, ls, i) ==>
                  Verdict(s, t, inst, ls[i], items[i]))
  {
    hide AdoptionItems, Classify, Visits, KeepsName, Retained, SharesRecord, Shows, Manages, SoleManager, SoleRelated,
         Relates;
    FinishedItem(s, t, inst, hosts, i);
    var l := Visits(hosts)[i];
    VerdictIs(s, t, inst, l);
    PlanLength(s, t, inst, hosts);
    var own := Classify(s, t, inst, l).value;
    SelectedIsSole(s, t, inst, l);
    RetainedIs(s, t, inst, Visits(hosts), l, own);
    RetainedIs(s, t, inst, Visits(hosts), l, own.(classification := Ambiguous, selected := None));
  }

  lemma RetainedIs(s: Snapshot, t: Target, inst: string, ls: seq<Live>, l: Live, item: Item)
    requires UniqueIds(s.devices) && UniqueIds(s.vms) && Classify(s, t, inst, l).Some?
    requires var own := Classify(s, t, inst, l).value;
             item == own || item == own.(classification := Ambiguous, selected := None)
    ensures Retained(item, LiveIds(inst, ls)) <==> exists o :: KeepsName(s, t, inst, ls, l, o)
  {
    hide Carriers, Correlated, Relates, SharesIp, SharesMac, SameNames, IpsDiffer, MacsDiffer;
    if l.LiveVm? {
      ManagersAre(s, inst, l);
      var rs := Parents(s, KindOf(l));
      var carriers := Carriers(rs, IdentityOf(inst, l)).value;
      if carriers == [] {
        CorrelatedAre(s, t, l, rs);
        RelatedAreParents(s, t, l);
        var es := Correlated(s, t, l, rs);
        if |es| == 1 {
          var o :| o in rs && Relates(s, t, l, o) && Tells(s, l, o, es[0])
                   && forall q :: q in rs && Relates(s, t, l, q) ==> q == o;
          assert es == [es[0]];
          assert SoleRelated(s, t, l, o);
          RetainedRecord(s, t, inst, ls, l, o, es[0]);
          SafeIsHarmless(s, l, o, es[0]);
          assert forall q :: KeepsName(s, t, inst, ls, l, q) ==> q == o;
        } else if |es| > 1 {
          var o, q :| o in rs && q in rs && o != q && Relates(s, t, l, o) && Relates(s, t, l, q);
        }
      }
    }
  }

  /** What the sole candidate must look like. */
  lemma RetainedRecord(s: Snapshot, t: Target, inst: string, ls: seq<Live>, l: Live, o: Parent, e: Evidence)
    requires l.LiveVm? && !Carried(s, inst, l) && SoleRelated(s, t, l, o) && Tells(s, l, o, e)
    ensures Retained(Item(VmKind, NameOf(l), IdentityOf(inst, l), Ambiguous, [e], None), LiveIds(inst, ls)) <==>
            KeepsName(s, t, inst, ls, l, o)
    ensures KeepsName(s, t, inst, ls, l, o) ==> Claimed(o)
  {
    hide Relates, SharedIp, SharedMac, IpsDiffer, MacsDiffer, SameNames, Carried;
    EmptyOrMember(e.ips);
    EmptyOrMember(e.macs);
    if o.identities.Entries? && |o.identities.list| == 1 && o.identities.list[0].V2? {
      assert o.identities.list[0] in o.identities.list;
      var id := o.identities.list[0].id;
      if id.source == "esxi" && id.inst == inst && id.kind == "vm" {
        LiveIdsAre(inst, ls, id);
      }
    }
  }

  lemma LiveIdsAre(inst: string, ls: seq<Live>, id: SourceIdentity)
    requires id.source == "esxi" && id.inst == inst && id.kind == "vm"
    ensures id in LiveIds(inst, ls) <==> exists v :: v in ls && v.LiveVm? && id.externalId == v.vm.externalId
  {
    if v :| v in ls && v.LiveVm? && id.externalId == v.vm.externalId {
      assert IdentityOf(inst, v) == id;
    }
  }

  // ---------------------------------------------------------------- acceptance

  /** A broken v2 record stands before any record of the identity. */
  predicate MeetsBroken(o: Parent, id: SourceIdentity) {
    o.identities.Entries? && BrokenFirst(o.identities.list, id)
  }

  lemma {:induction false} CarriersFail(rs: seq<Parent>, id: SourceIdentity)
    ensures Carriers(rs, id).None? <==> exists o :: o in rs && MeetsBroken(o, id)
  {
    if rs != [] {
      var init, last := rs[..|rs| - 1], rs[|rs| - 1];
      CarriersFail(init, id);
      assert last in rs && forall o :: o in rs <==> o in init || o == last;
      if last.identities.Entries? {
        ScanFails(last.identities.list, id);
      }
      if o :| o in init && MeetsBroken(o, id) {
        assert o in rs;
      }
    }
  }

  /** The object cannot be classified: a broken record is met, or hardware evidence is refused where it is needed. */
  ghost predicate Unclassified(s: Snapshot, inst: string, l: Live) {
    || (exists o :: o in Parents(s, KindOf(l)) && MeetsBroken(o, IdentityOf(inst, l)))
    || (!Carried(s, inst, l) && l.LiveHost? && l.host.hardware.HardwareRefused?)
  }

  /** One object stops the plan exactly when a broken record is met or unneeded hardware evidence is refused. */
  lemma ClassifyFails(s: Snapshot, t: Target, inst: string, l: Live)
    requires UniqueIds(Parents(s, KindOf(l)))
    ensures Classify(s, t, inst, l).None? <==> Unclassified(s, inst, l)
  {
    hide Carriers, Correlated, EsxiAdoption.Verdict, MeetsBroken;
    CarriersFail(Parents(s, KindOf(l)), IdentityOf(inst, l));
    if Carriers(Parents(s, KindOf(l)), IdentityOf(inst, l)).Some? {
      ManagersAre(s, inst, l);
    }
  }

  /** A record holds an identity that cannot be parsed. */
  predicate Broken(o: Parent) {
    o.identities.Entries? && exists e :: e in o.identities.list && e.BrokenV2?
  }

  predicate Whole(rs: seq<Parent>) {
    forall o :: o in rs ==> !Broken(o)
  }

  /** A device recorded for a host of this source that is not discovered any more. */
  predicate LostHost(s: Snapshot, inst: string, hosts: seq<Host>) {
    exists d, e :: d in s.devices && d.identities.Entries? && e in d.identities.list && e.V2?
                   && e.id.source == "esxi" && e.id.inst == inst && e.id.kind == "host"
                   && forall h :: h in hosts ==> h.sourceId != e.id.externalId
  }

  /** The machine's sole record is broken, and out of scope or listed twice, so its identities have to be parsed. */
  ghost predicate Unparsed(s: Snapshot, t: Target, inst: string, ls: seq<Live>, i: nat)
    requires i < |ls|
  {
    && ls[i].LiveVm?
    && exists o :: SoleManager(s, inst, ls[i], o) && Broken(o)
                   && (!InScope(t, VmKind, o) || SharesRecord(s, t, inst, ls, i))
  }

  ghost predicate AllParsed(s: Snapshot, t: Target, inst: string, ls: seq<Live>) {
    forall i :: 0 <= i < |ls| ==> !Unparsed(s, t, inst, ls, i)
  }

  /** The plan exists exactly when no device is broken, no host is lost, and every object is classified and parsed. */
  lemma PlanIsAccepted(s: Snapshot, t: Target, inst: string, hosts: seq<Host>)
    requires UniqueIds(s.devices) && UniqueIds(s.vms)
    ensures AdoptionItems(s, t, inst, hosts).Some? <==>
            && Whole(s.devices) && !LostHost(s, inst, hosts)
            && (forall l :: l in Visits(hosts) ==> !Unclassified(s, inst, l))
            && AllParsed(s, t, inst, Visits(hosts))
  {
    hide Classify, Classified, Visits, Readable, Contested, Unclassified, Unparsed, UniqueIds, LostHost, Whole,
         HostsStillThere;
    HostsThere(s, inst, hosts);
    var ls := Visits(hosts);
    forall l | l in ls
      ensures Classify(s, t, inst, l).None? <==> Unclassified(s, inst, l)
    {
      ClassifyFails(s, t, inst, l);
    }
    ClassifiedFails(s, t, inst, ls);
    assert Classified(s, t, inst, ls).Some? <==> forall l :: l in ls ==> !Unclassified(s, inst, l);
    if Classified(s, t, inst, ls).Some? {
      var marked := Marked(Classified(s, t, inst, ls).value);
      ItemsMatch(s, t, inst, ls);
      forall i | 0 <= i < |ls|
        ensures Readable(marked[i]) <==> !Unparsed(s, t, inst, ls, i)
      {
        ReadableIff(s, t, inst, ls, i);
      }
      AllReadable(marked);
      assert AdoptionItems(s, t, inst, hosts).Some? <==>
             HostsStillThere(s.devices, inst, hosts) && forall i :: 0 <= i < |ls| ==> Readable(marked[i]);
      assert (forall i :: 0 <= i < |ls| ==> Readable(marked[i])) <==> AllParsed(s, t, inst, ls);
    }
  }

  lemma AllReadable(items: seq<Item>)
    ensures (exists item :: item in items && !Readable(item)) <==> exists i :: 0 <= i < |items| && !Readable(items[i])
  {
    hide Readable;
  }

  lemma HostsThere(s: Snapshot, inst: string, hosts: seq<Host>)
    ensures HostsStillThere(s.devices, inst, hosts) <==>
            Whole(s.devices) && !LostHost(s, inst, hosts)
  {
    if HostsStillThere(s.devices, inst, hosts) {
      forall d, e | d in s.devices && d.identities.Entries? && e in d.identities.list
        ensures !e.BrokenV2?
        ensures e.V2? && e.id.source == "esxi" && e.id.inst == inst && e.id.kind == "host" ==>
                  exists h :: h in hosts && h.sourceId == e.id.externalId
      {
        assert StillThere(e, inst, hosts);
      }
    } else {
      var d, e :| d in s.devices && d.identities.Entries? && e in d.identities.list && !StillThere(e, inst, hosts);
      if e != BrokenV2 {
        assert forall h :: h in hosts ==> h.sourceId != e.id.externalId;
        assert LostHost(s, inst, hosts);
      } else {
        assert Broken(d);
      }
    }
  }

  lemma {:induction false} ClassifiedFails(s: Snapshot, t: Target, inst: string, ls: seq<Live>)
    ensures Classified(s, t, inst, ls).None? <==> exists l :: l in ls && Classify(s, t, inst, l).None?
  {
    hide Classify;
    if ls != [] {
      ClassifiedFails(s, t, inst, ls[..|ls| - 1]);
      assert forall l :: l in ls <==> l in ls[..|ls| - 1] || l == ls[|ls| - 1];
    }
  }

  lemma ItemsMatch(s: Snapshot, t: Target, inst: string, ls: seq<Live>)
    requires Classified(s, t, inst, ls).Some?
    ensures |Classified(s, t, inst, ls).value| == |ls|
  {
    if ls != [] {
      ClassifiedAt(s, t, inst, ls, 0);
    }
  }

  /** The identities of a sole candidate are unreadable exactly when its record is broken. */
  lemma ReadableIff(s: Snapshot, t: Target, inst: string, ls: seq<Live>, i: nat)
    requires UniqueIds(s.devices) && UniqueIds(s.vms) && Classified(s, t, inst, ls).Some? && i < |ls|
    ensures |Classified(s, t, inst, ls).value| == |ls|
    ensures Readable(Marked(Classified(s, t, inst, ls).value)[i]) <==> !Unparsed(s, t, inst, ls, i)
  {
    hide Classify, Classified, UniqueIds, SharesRecord, Contested, Readable, Shows, SoleManager, Manages, Broken,
         Relates, InScope;
    ClassifiedAt(s, t, inst, ls, i);
    ClassifiedShow(s, t, inst, ls);
    ContestedIsShared(s, t, inst, ls, Classified(s, t, inst, ls).value, i);
    VerdictIs(s, t, inst, ls[i]);
    if ls[i].LiveVm? {
      var item := Marked(Classified(s, t, inst, ls).value)[i];
      if HasManager(s, inst, ls[i]) {
        ManagedReadable(s, t, inst, ls[i], item, SharesRecord(s, t, inst, ls, i));
      } else {
        UnmanagedReadable(s, t, inst, ls[i], item);
        SoleIsManager(s, inst, ls[i]);
      }
    } else {
      HostReadable(Marked(Classified(s, t, inst, ls).value)[i]);
    }
  }

  lemma HostReadable(item: Item)
    requires item.kind.HostKind?
    ensures Readable(item)
  {
  }

  lemma SoleIsManager(s: Snapshot, inst: string, l: Live)
    ensures forall o :: SoleManager(s, inst, l, o) ==> Manages(s, inst, l, o)
  {
  }

  lemma ManagedReadable(s: Snapshot, t: Target, inst: string, l: Live, item: Item, shared: bool)
    requires UniqueIds(s.vms) && l.LiveVm? && item.kind == VmKind && HasManager(s, inst, l)
    requires Shows(s, t, inst, l, item.candidates)
    requires item.classification == Ambiguous <==>
             shared || !exists o :: SoleManager(s, inst, l, o) && InScope(t, VmKind, o)
    ensures Readable(item) <==>
            !exists o :: SoleManager(s, inst, l, o) && Broken(o) && (!InScope(t, VmKind, o) || shared)
  {
    hide Manages, InScope, Relates, Tells, UniqueIds;
    var o :| Manages(s, inst, l, o);
    assert Listed(s, t, inst, l, o);
    var e :| e in item.candidates && e.objectId == o.id;
    if |item.candidates| == 1 {
      SoleCandidate(s, t, inst, l, item.candidates);
    } else if q :| SoleManager(s, inst, l, q) {
      OneCandidate(s, t, inst, l, item.candidates, q);
    }
  }

  /** A sole candidate is the sole manager. */
  lemma SoleCandidate(s: Snapshot, t: Target, inst: string, l: Live, es: seq<Evidence>)
    requires UniqueIds(s.vms) && l.LiveVm? && HasManager(s, inst, l)
    requires Shows(s, t, inst, l, es) && |es| == 1
    ensures exists o :: SoleManager(s, inst, l, o) && es[0].identities == o.identities
    ensures forall o, q :: SoleManager(s, inst, l, o) && SoleManager(s, inst, l, q) ==> o == q
  {
    hide Manages, Relates, Tells, UniqueIds;
    assert TellsListed(s, t, inst, l, es[0]);
    var o :| Manages(s, inst, l, o) && es[0] == ManagerEvidence(s, inst, l, o);
    forall q | Manages(s, inst, l, q)
      ensures q == o
    {
      assert Listed(s, t, inst, l, q) && IsTold(es, q);
      ManagersAreParents(s, inst, l);
      UniqueParent(s.vms, o, q);
    }
    assert SoleManager(s, inst, l, o);
  }

  /** The sole manager is the sole candidate. */
  lemma OneCandidate(s: Snapshot, t: Target, inst: string, l: Live, es: seq<Evidence>, o: Parent)
    requires Shows(s, t, inst, l, es) && SoleManager(s, inst, l, o)
    ensures |es| == 1
  {
    hide Manages, Relates, Tells;
    assert Listed(s, t, inst, l, o) && IsTold(es, o);
    OnceDiffers(es);
    forall i | 0 <= i < |es|
      ensures es[i].objectId == o.id
    {
      assert TellsListed(s, t, inst, l, es[i]);
    }
  }

  lemma OnceDiffers(es: seq<Evidence>)
    requires Once(es)
    ensures |es| > 1 ==> es[0].objectId != es[1].objectId
  {
  }

  lemma UnmanagedReadable(s: Snapshot, t: Target, inst: string, l: Live, item: Item)
    requires UniqueIds(s.vms) && l.LiveVm? && Classify(s, t, inst, l).Some? && !HasManager(s, inst, l)
    requires Shows(s, t, inst, l, item.candidates)
    ensures Readable(item)
  {
    hide Classify, Relates, SharedIp, SharedMac, IpsDiffer, MacsDiffer, Claimed, SameNames, UniqueIds;
    ClassifyFails(s, t, inst, l);
    ListedAreParents(s, t, inst, l);
    NoCarrier(s, inst, l);
    forall o | o in s.vms
      ensures !Broken(o)
    {
      if Broken(o) {
        BrokenIsMet(o, IdentityOf(inst, l));
      }
    }
    if |item.candidates| == 1 {
      assert TellsListed(s, t, inst, l, item.candidates[0]);
    }
  }

  lemma NoCarrier(s: Snapshot, inst: string, l: Live)
    requires !HasManager(s, inst, l)
    ensures forall o :: o in Parents(s, KindOf(l)) && o.identities.Entries? ==>
                        V2(IdentityOf(inst, l)) !in o.identities.list
  {
    forall o | o in Parents(s, KindOf(l)) && o.identities.Entries?
      ensures V2(IdentityOf(inst, l)) !in o.identities.list
    {
      assert Carrier(s, inst, l, o) ==> Manages(s, inst, l, o);
    }
  }

  lemma BrokenIsMet(o: Parent, id: SourceIdentity)
    requires Broken(o) && V2(id) !in o.identities.list
    ensures MeetsBroken(o, id)
  {
    var i :| 0 <= i < |o.identities.list| && o.identities.list[i] == BrokenV2;
  }

  lemma ManagersAreParents(s: Snapshot, inst: string, l: Live)
    ensures forall o :: Manages(s, inst, l, o) ==> o in Parents(s, KindOf(l))
  {
  }
}
