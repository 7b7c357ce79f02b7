/**
 What the verdict on one discovered interface says about the records: every classification of the migration
 plan, stated on the recorded assignments and the interfaces of the managed parent.
 */
module EsxiPortVerdicts {
  import opened Wrappers
  import opened Texts
  import opened SourceIdentities
  import opened Guests
  import opened EsxiRecords
  import opened EsxiAdoption
  import opened EsxiMigration

  // ------------------------------------------------------------------ evidence

  /** The address or MAC was discovered on the interface. */
  predicate Discovered(l: LivePort, extra: seq<IpText>, v: Signal) {
    match v
    case IpSignal(a) => exists t :: t in l.ips + extra && CanonicalIp(t) == Some(a)
    case MacSignal(m) => CanonicalEui(l.mac) == Some(m)
    case _ => false
  }

  predicate IpRecordOf(r: IpRecord, a: Address, o: Assigned) {
    CanonicalIp(r.address) == Some(a) && r.owner == o && (o.kind.Some? || o.id.Some?)
  }

  predicate MacRecordOf(r: MacRecord, m: string, o: Assigned) {
    CanonicalEui(r.address) == Some(m) && r.owner == o && (o.kind.Some? || o.id.Some?)
  }

  /** Some record assigns the value to the owner. */
  predicate AssignedTo(s: Snapshot, v: Signal, o: Assigned) {
    match v
    case IpSignal(a) => exists r :: r in s.ips && IpRecordOf(r, a, o)
    case MacSignal(m) => exists r :: r in s.macs && MacRecordOf(r, m, o)
    case _ => false
  }

  /** Two records assign the value. */
  predicate Doubled(s: Snapshot, v: Signal) {
    match v
    case IpSignal(a) =>
      exists i, j :: 0 <= i < j < |s.ips|
        && IpRecordOf(s.ips[i], a, s.ips[i].owner) && IpRecordOf(s.ips[j], a, s.ips[j].owner)
    case MacSignal(m) =>
      exists i, j :: 0 <= i < j < |s.macs|
        && MacRecordOf(s.macs[i], m, s.macs[i].owner) && MacRecordOf(s.macs[j], m, s.macs[j].owner)
    case _ => false
  }

  predicate Own(s: Snapshot, k: Kind, parent: nat, p: Port) {
    p in Ports(s, k) && p.parent == Some(parent)
  }

  function OwnerOf(k: Kind, p: Port): Assigned {
    Assigned(Some(PortType(k)), Some(p.id))
  }

  /** Some discovered value is recorded on something that is not an interface of the parent. */
  ghost predicate Elsewhere(s: Snapshot, k: Kind, parent: nat, l: LivePort, extra: seq<IpText>) {
    exists v, o :: Discovered(l, extra, v) && AssignedTo(s, v, o)
                   && forall p :: Own(s, k, parent, p) ==> o != OwnerOf(k, p)
  }

  /** Some discovered value is recorded on the interface. */
  ghost predicate Reached(s: Snapshot, k: Kind, l: LivePort, extra: seq<IpText>, p: Port) {
    exists v :: Discovered(l, extra, v) && AssignedTo(s, v, OwnerOf(k, p))
  }

  ghost predicate Repeated(s: Snapshot, l: LivePort, extra: seq<IpText>) {
    exists v :: Discovered(l, extra, v) && Doubled(s, v)
  }

  /** The only interface of the parent that a discovered value reaches. */
  ghost predicate SoleReached(s: Snapshot, k: Kind, parent: nat, l: LivePort, extra: seq<IpText>, p: Port) {
    && Own(s, k, parent, p) && Reached(s, k, l, extra, p)
    && forall q :: Own(s, k, parent, q) && Reached(s, k, l, extra, q) ==> q == p
  }

  ghost predicate NoneReached(s: Snapshot, k: Kind, parent: nat, l: LivePort, extra: seq<IpText>) {
    forall p :: Own(s, k, parent, p) ==> !Reached(s, k, l, extra, p)
  }

  predicate SharesName(s: Snapshot, k: Kind, parent: nat, l: LivePort, p: Port) {
    Own(s, k, parent, p) && Fold(p.name) == Fold(l.name)
  }

  ghost predicate SoleNamed(s: Snapshot, k: Kind, parent: nat, l: LivePort, p: Port) {
    SharesName(s, k, parent, l, p) && forall q :: SharesName(s, k, parent, l, q) ==> q == p
  }

  ghost predicate NoneNamed(s: Snapshot, k: Kind, parent: nat, l: LivePort) {
    forall p :: !SharesName(s, k, parent, l, p)
  }

  // -------------------------------------------------- evidence and the scan

  lemma {:induction false} IpOwnersAre(ips: seq<IpRecord>, a: Address, o: Assigned)
    ensures o in IpOwners(ips, a) <==> exists r :: r in ips && IpRecordOf(r, a, o)
  {
    if ips != [] {
      var init, last := ips[..|ips| - 1], ips[|ips| - 1];
      IpOwnersAre(init, a, o);
      assert o in IpOwners(ips, a) <==> o in IpOwners(init, a) || IpRecordOf(last, a, o);
      assert last in ips && forall r :: r in ips <==> r in init || r == last;
      if r :| r in init && IpRecordOf(r, a, o) {
        assert r in ips;
      }
    }
  }

  lemma {:induction false} MacOwnersAre(macs: seq<MacRecord>, m: string, o: Assigned)
    ensures o in MacOwners(macs, m) <==> exists r :: r in macs && MacRecordOf(r, m, o)
  {
    if macs != [] {
      var init, last := macs[..|macs| - 1], macs[|macs| - 1];
      MacOwnersAre(init, m, o);
      assert o in MacOwners(macs, m) <==> o in MacOwners(init, m) || MacRecordOf(last, m, o);
      assert last in macs && forall r :: r in macs <==> r in init || r == last;
      if r :| r in init && MacRecordOf(r, m, o) {
        assert r in macs;
      }
    }
  }

  lemma OwnersAre(s: Snapshot, v: Signal, o: Assigned)
    ensures o in Owners(s, v) <==> AssignedTo(s, v, o)
  {
    match v
    case IpSignal(a) => IpOwnersAre(s.ips, a, o);
    case MacSignal(m) => MacOwnersAre(s.macs, m, o);
    case _ =>
  }

  lemma {:induction false} IpOwnersCount(ips: seq<IpRecord>, a: Address)
    ensures |IpOwners(ips, a)| > 0 <==> exists i :: 0 <= i < |ips| && IpRecordOf(ips[i], a, ips[i].owner)
    ensures |IpOwners(ips, a)| > 1 <==>
            exists i, j :: 0 <= i < j < |ips|
              && IpRecordOf(ips[i], a, ips[i].owner) && IpRecordOf(ips[j], a, ips[j].owner)
  {
    hide CanonicalIp;
    if ips != [] {
      var init := ips[..|ips| - 1];
      IpOwnersCount(init, a);
      assert forall i :: 0 <= i < |init| ==> init[i] == ips[i];
    }
  }

  lemma {:induction false} MacOwnersCount(macs: seq<MacRecord>, m: string)
    ensures |MacOwners(macs, m)| > 0 <==> exists i :: 0 <= i < |macs| && MacRecordOf(macs[i], m, macs[i].owner)
    ensures |MacOwners(macs, m)| > 1 <==>
            exists i, j :: 0 <= i < j < |macs|
              && MacRecordOf(macs[i], m, macs[i].owner) && MacRecordOf(macs[j], m, macs[j].owner)
  {
    hide CanonicalEui;
    if macs != [] {
      var init := macs[..|macs| - 1];
      MacOwnersCount(init, m);
      assert forall i :: 0 <= i < |init| ==> init[i] == macs[i];
    }
  }

  lemma OwnersCount(s: Snapshot, v: Signal)
    ensures |Owners(s, v)| > 1 <==> Doubled(s, v)
  {
    match v
    case IpSignal(a) => IpOwnersCount(s.ips, a);
    case MacSignal(m) => MacOwnersCount(s.macs, m);
    case _ =>
  }

  lemma ValuesAre(l: LivePort, extra: seq<IpText>, v: Signal)
    ensures v in Values(l, extra) <==> Discovered(l, extra, v)
  {
  }

  /** The values recorded on one interface. */
  lemma SignalsAre(s: Snapshot, k: Kind, l: LivePort, extra: seq<IpText>, p: Port)
    ensures forall v :: v in SignalsOn(s, k, Values(l, extra), p.id) <==>
                        Discovered(l, extra, v) && AssignedTo(s, v, OwnerOf(k, p))
    ensures SignalsOn(s, k, Values(l, extra), p.id) != {} <==> Reached(s, k, l, extra, p)
  {
    hide Values, Owners, Discovered, AssignedTo;
    var on := SignalsOn(s, k, Values(l, extra), p.id);
    forall v
      ensures v in on <==> Discovered(l, extra, v) && AssignedTo(s, v, OwnerOf(k, p))
    {
      ValuesAre(l, extra, v);
      OwnersAre(s, v, OwnerOf(k, p));
    }
  }

  lemma {:induction false} OwnedUnique(ps: seq<Port>, parent: nat)
    requires UniquePorts(ps)
    ensures UniquePorts(Owned(ps, parent))
    ensures forall p :: p in Owned(ps, parent) <==> p in ps && p.parent == Some(parent)
  {
    if ps != [] {
      var init, last := ps[..|ps| - 1], ps[|ps| - 1];
      OwnedUnique(init, parent);
      assert forall p :: p in ps <==> p in init || p == last;
      assert forall p :: p in init ==> p.id != last.id;
    }
  }

  lemma {:induction false} NotOwnedAre(ps: seq<Port>, parent: nat)
    ensures forall p :: p in NotOwned(ps, parent) <==> p in ps && p.parent != Some(parent)
  {
    if ps != [] {
      NotOwnedAre(ps[..|ps| - 1], parent);
      assert forall p :: p in ps <==> p in ps[..|ps| - 1] || p == ps[|ps| - 1];
    }
  }

  predicate SoleSignals(ps: seq<Port>, s: Snapshot, k: Kind, values: set<Signal>, p: Port) {
    && p in ps && SignalsOn(s, k, values, p.id) != {}
    && forall q :: q in ps && SignalsOn(s, k, values, q.id) != {} ==> q == p
  }

  /** No, one or several interfaces carry a discovered value. */
  lemma {:induction false} HitShape(ps: seq<Port>, s: Snapshot, k: Kind, values: set<Signal>, foreign: bool)
    requires UniquePorts(ps)
    ensures var found := Hit(ps, s, k, values, foreign);
            && (found == [] ==> forall p :: p in ps ==> SignalsOn(s, k, values, p.id) == {})
            && (|found| == 1 ==> exists p :: SoleSignals(ps, s, k, values, p)
                                             && found == [PortCandidate(p.id, SignalsOn(s, k, values, p.id), foreign)])
            && (|found| > 1 ==> exists p, q :: p in ps && q in ps && p != q && SignalsOn(s, k, values, p.id) != {}
                                               && SignalsOn(s, k, values, q.id) != {})
  {
    hide SignalsOn;
    if ps != [] {
      var init, last := ps[..|ps| - 1], ps[|ps| - 1];
      HitShape(init, s, k, values, foreign);
      assert forall p :: p in ps <==> p in init || p == last;
      assert forall p :: p in init ==> p.id != last.id;
      var before := Hit(init, s, k, values, foreign);
      if SignalsOn(s, k, values, last.id) == {} {
        if |before| == 1 {
          var p :| SoleSignals(init, s, k, values, p)
                   && before == [PortCandidate(p.id, SignalsOn(s, k, values, p.id), foreign)];
          assert SoleSignals(ps, s, k, values, p);
        }
      } else if before == [] {
        assert SoleSignals(ps, s, k, values, last);
      } else {
        var p :| p in init && SignalsOn(s, k, values, p.id) != {};
        assert p in ps && last in ps && p != last;
      }
    }
  }

  lemma {:induction false} ForeignHit(ps: seq<Port>, s: Snapshot, k: Kind, values: set<Signal>)
    ensures Hit(ps, s, k, values, true) != [] <==> exists p :: p in ps && SignalsOn(s, k, values, p.id) != {}
  {
    hide SignalsOn;
    if ps != [] {
      ForeignHit(ps[..|ps| - 1], s, k, values);
      assert forall p :: p in ps <==> p in ps[..|ps| - 1] || p == ps[|ps| - 1];
    }
  }

  predicate SoleWithName(ps: seq<Port>, name: string, p: Port) {
    p in ps && Fold(p.name) == Fold(name) && forall q :: q in ps && Fold(q.name) == Fold(name) ==> q == p
  }

  lemma {:induction false} NamedShape(ps: seq<Port>, name: string)
    requires UniquePorts(ps)
    ensures var found := Named(ps, name);
            && (found == [] ==> forall p :: p in ps ==> Fold(p.name) != Fold(name))
            && (|found| == 1 ==> SoleWithName(ps, name, found[0]))
            && (|found| > 1 ==> exists p, q :: p in ps && q in ps && p != q && Fold(p.name) == Fold(name)
                                               && Fold(q.name) == Fold(name))
  {
    hide Fold;
    if ps != [] {
      var init, last := ps[..|ps| - 1], ps[|ps| - 1];
      NamedShape(init, name);
      assert forall p :: p in ps <==> p in init || p == last;
      assert forall p :: p in init ==> p.id != last.id;
      var before := Named(init, name);
      if before != [] {
        NamedPorts(init, name);
        assert before[0] in init && before[0] in ps && before[0] != last;
        NamedFold(init, name);
      }
    }
  }

  lemma {:induction false} NamedFold(ps: seq<Port>, name: string)
    ensures forall p :: p in Named(ps, name) ==> Fold(p.name) == Fold(name)
  {
    hide Fold;
    if ps != [] {
      NamedFold(ps[..|ps| - 1], name);
    }
  }

  // ------------------------------------------------------------- the verdicts

  /** Recorded owners outside the parent, as the scan sees them. */
  lemma ConflictIsElsewhere(s: Snapshot, k: Kind, parent: nat, l: LivePort, extra: seq<IpText>)
    requires UniquePorts(Ports(s, k))
    ensures var values := Values(l, extra);
            HasConflict(s, k, values) || Hit(NotOwned(Ports(s, k), parent), s, k, values, true) != [] <==>
            Elsewhere(s, k, parent, l, extra)
  {
    hide Values, Owners, Discovered, AssignedTo, Hit, SignalsOn, NotOwned, PortType;
    var values, others := Values(l, extra), NotOwned(Ports(s, k), parent);
    ForeignHit(others, s, k, values);
    NotOwnedAre(Ports(s, k), parent);
    if HasConflict(s, k, values) {
      var v :| v in values && exists o :: o in Owners(s, v) && !Usable(s, k, o);
      var o :| o in Owners(s, v) && !Usable(s, k, o);
      ValuesAre(l, extra, v);
      OwnersAre(s, v, o);
      assert forall p :: Own(s, k, parent, p) ==> o != OwnerOf(k, p);
    }
    if p :| p in others && SignalsOn(s, k, values, p.id) != {} {
      SignalsAre(s, k, l, extra, p);
      var v :| Discovered(l, extra, v) && AssignedTo(s, v, OwnerOf(k, p));
      assert forall q :: Own(s, k, parent, q) ==> OwnerOf(k, p) != OwnerOf(k, q);
    }
    if Elsewhere(s, k, parent, l, extra) {
      var v, o :| Discovered(l, extra, v) && AssignedTo(s, v, o)
                  && forall p :: Own(s, k, parent, p) ==> o != OwnerOf(k, p);
      ValuesAre(l, extra, v);
      OwnersAre(s, v, o);
      if Usable(s, k, o) {
        var p :| p in Ports(s, k) && p.id == o.id.value;
        SignalsAre(s, k, l, extra, p);
        assert o == OwnerOf(k, p);
        assert p in others;
      }
    }
  }

  lemma DuplicateIsRepeated(s: Snapshot, l: LivePort, extra: seq<IpText>)
    ensures HasDuplicate(s, Values(l, extra)) <==> Repeated(s, l, extra)
  {
    hide Values, Owners, Discovered, Doubled;
    forall v
      ensures v in Values(l, extra) <==> Discovered(l, extra, v)
      ensures |Owners(s, v)| > 1 <==> Doubled(s, v)
    {
      ValuesAre(l, extra, v);
      OwnersCount(s, v);
    }
  }

  /** The interfaces of the parent that carry discovered values: none, one or several. */
  ghost predicate LocalShape(s: Snapshot, k: Kind, parent: nat, l: LivePort, extra: seq<IpText>,
                             local: seq<PortCandidate>) {
    && (local == [] ==> NoneReached(s, k, parent, l, extra))
    && (|local| == 1 ==> exists p :: SoleReached(s, k, parent, l, extra, p) && Carries(s, k, l, extra, p, local[0]))
    && (|local| > 1 ==> exists p, q :: Own(s, k, parent, p) && Own(s, k, parent, q) && p != q
                                       && Reached(s, k, l, extra, p) && Reached(s, k, l, extra, q))
  }

  /** The candidate is the interface, with exactly the discovered values recorded on it. */
  ghost predicate Carries(s: Snapshot, k: Kind, l: LivePort, extra: seq<IpText>, p: Port, c: PortCandidate) {
    && c.portId == p.id && !c.foreign
    && forall v :: v in c.signals <==> Discovered(l, extra, v) && AssignedTo(s, v, OwnerOf(k, p))
  }

  lemma LocalIs(s: Snapshot, k: Kind, parent: nat, l: LivePort, extra: seq<IpText>)
    requires UniquePorts(Ports(s, k))
    ensures LocalShape(s, k, parent, l, extra, Hit(Owned(Ports(s, k), parent), s, k, Values(l, extra), false))
  {
    hide Values, Discovered, AssignedTo, Hit, SignalsOn, Owned, Reached;
    var values, owned := Values(l, extra), Owned(Ports(s, k), parent);
    OwnedUnique(Ports(s, k), parent);
    HitShape(owned, s, k, values, false);
    forall p: Port
      ensures SignalsOn(s, k, values, p.id) != {} <==> Reached(s, k, l, extra, p)
    {
      SignalsAre(s, k, l, extra, p);
    }
    var local := Hit(owned, s, k, values, false);
    if |local| == 1 {
      var p :| SoleSignals(owned, s, k, values, p)
               && local == [PortCandidate(p.id, SignalsOn(s, k, values, p.id), false)];
      SignalsAre(s, k, l, extra, p);
      assert SoleReached(s, k, parent, l, extra, p) && Carries(s, k, l, extra, p, local[0]);
    }
  }

  lemma NamesAre(s: Snapshot, k: Kind, parent: nat, l: LivePort)
    requires UniquePorts(Ports(s, k))
    ensures var names := Named(Owned(Ports(s, k), parent), l.name);
            && (names == [] ==> NoneNamed(s, k, parent, l))
            && (|names| == 1 ==> SoleNamed(s, k, parent, l, names[0]))
            && (|names| > 1 ==>
                  exists p, q :: SharesName(s, k, parent, l, p) && SharesName(s, k, parent, l, q) && p != q)
  {
    hide Fold, Owned, Named;
    OwnedUnique(Ports(s, k), parent);
    var owned := Owned(Ports(s, k), parent);
    NamedShape(owned, l.name);
    if |Named(owned, l.name)| > 1 {
      var p, q :| p in owned && q in owned && p != q && Fold(p.name) == Fold(l.name) && Fold(q.name) == Fold(l.name);
      assert SharesName(s, k, parent, l, p) && SharesName(s, k, parent, l, q);
    }
  }

  /** How the sole interface that a discovered value reaches, or else the sole one of that name, is taken over. */
  ghost predicate TakesOver(s: Snapshot, k: Kind, parent: nat, l: LivePort, extra: seq<IpText>, item: PortItem) {
    && |item.candidates| == 1
    && if NoneReached(s, k, parent, l, extra) then
         item.classification == MatchExisting
         && exists p :: SoleNamed(s, k, parent, l, p) && item.candidates[0] == PortCandidate(p.id, {NameSignal}, false)
       else
         exists p :: SoleReached(s, k, parent, l, extra, p) && Carries(s, k, l, extra, p, item.candidates[0])
                     && item.classification == if Fold(p.name) == Fold(l.name) then MatchExisting else SafeReuse
  }

  /** Without an identity match: the whole verdict on the records. */
  ghost predicate Verdict(s: Snapshot, k: Kind, parent: nat, l: LivePort, extra: seq<IpText>, item: PortItem) {
    if Elsewhere(s, k, parent, l, extra) then
      item.classification == PortConflict && ListsReached(s, k, l, extra, item)
    else if Repeated(s, l, extra) then
      item.classification == PortAmbiguous && ListsOwnReached(s, k, parent, l, extra, item)
    else if NoneReached(s, k, parent, l, extra) && NoneNamed(s, k, parent, l) then
      item.classification == Create && item.candidates == []
    else if || (exists p :: SoleReached(s, k, parent, l, extra, p))
            || (NoneReached(s, k, parent, l, extra) && exists p :: SoleNamed(s, k, parent, l, p))
    then TakesOver(s, k, parent, l, extra, item)
    else
      && item.classification == PortAmbiguous
      && if NoneReached(s, k, parent, l, extra) then ListsNamed(s, k, parent, l, item)
         else ListsOwnReached(s, k, parent, l, extra, item)
  }

  predicate Lists(item: PortItem, id: nat) {
    exists c :: c in item.candidates && c.portId == id
  }

  /** The candidates are all interfaces that carry a discovered value, of whichever parent. */
  ghost predicate ListsReached(s: Snapshot, k: Kind, l: LivePort, extra: seq<IpText>, item: PortItem) {
    forall id :: Lists(item, id) <==> exists p :: p in Ports(s, k) && p.id == id && Reached(s, k, l, extra, p)
  }

  ghost predicate ListsOwnReached(s: Snapshot, k: Kind, parent: nat, l: LivePort, extra: seq<IpText>, item: PortItem) {
    forall id :: Lists(item, id) <==> exists p :: Own(s, k, parent, p) && p.id == id && Reached(s, k, l, extra, p)
  }

  ghost predicate ListsNamed(s: Snapshot, k: Kind, parent: nat, l: LivePort, item: PortItem) {
    forall id :: Lists(item, id) <==> exists p :: SharesName(s, k, parent, l, p) && p.id == id
  }

  predicate Holds(found: seq<PortCandidate>, id: nat) {
    exists c :: c in found && c.portId == id
  }

  lemma {:induction false} HitMembers(ps: seq<Port>, s: Snapshot, k: Kind, values: set<Signal>, foreign: bool, id: nat)
    ensures Holds(Hit(ps, s, k, values, foreign), id) <==>
            exists p :: p in ps && p.id == id && SignalsOn(s, k, values, p.id) != {}
  {
    hide SignalsOn;
    if ps != [] {
      var init, last := ps[..|ps| - 1], ps[|ps| - 1];
      HitMembers(init, s, k, values, foreign, id);
      assert forall p :: p in ps <==> p in init || p == last;
      var before, all := Hit(init, s, k, values, foreign), Hit(ps, s, k, values, foreign);
      assert forall c :: c in before ==> c in all;
      if SignalsOn(s, k, values, last.id) != {} {
        assert all[|all| - 1] in all;
      }
    }
  }

  lemma {:induction false} NamedMembers(ps: seq<Port>, name: string)
    ensures forall p :: p in Named(ps, name) <==> p in ps && Fold(p.name) == Fold(name)
  {
    hide Fold;
    if ps != [] {
      NamedMembers(ps[..|ps| - 1], name);
      assert forall p :: p in ps <==> p in ps[..|ps| - 1] || p == ps[|ps| - 1];
    }
  }

  lemma HitReached(ps: seq<Port>, s: Snapshot, k: Kind, l: LivePort, extra: seq<IpText>, foreign: bool, id: nat)
    ensures Holds(Hit(ps, s, k, Values(l, extra), foreign), id) <==>
            exists p :: p in ps && p.id == id && Reached(s, k, l, extra, p)
  {
    hide Values, Hit, SignalsOn, Reached, Holds;
    HitMembers(ps, s, k, Values(l, extra), foreign, id);
    forall p | p in ps
      ensures SignalsOn(s, k, Values(l, extra), p.id) != {} <==> Reached(s, k, l, extra, p)
    {
      SignalsAre(s, k, l, extra, p);
    }
  }

  lemma LocalCandidates(s: Snapshot, k: Kind, parent: nat, l: LivePort, extra: seq<IpText>, item: PortItem)
    requires item.candidates == Hit(Owned(Ports(s, k), parent), s, k, Values(l, extra), false)
    ensures ListsOwnReached(s, k, parent, l, extra, item)
  {
    hide Values, Hit, Owned, Reached;
    OwnedPorts(Ports(s, k), parent);
    forall id: nat
      ensures Lists(item, id) <==> exists p :: Own(s, k, parent, p) && p.id == id && Reached(s, k, l, extra, p)
    {
      HitReached(Owned(Ports(s, k), parent), s, k, l, extra, false, id);
      assert Lists(item, id) <==> Holds(item.candidates, id);
    }
  }

  lemma AllCandidates(s: Snapshot, k: Kind, parent: nat, l: LivePort, extra: seq<IpText>, item: PortItem)
    requires item.candidates == Hit(Owned(Ports(s, k), parent), s, k, Values(l, extra), false)
                                + Hit(NotOwned(Ports(s, k), parent), s, k, Values(l, extra), true)
    ensures ListsReached(s, k, l, extra, item)
  {
    hide Values, Hit, Owned, NotOwned, Reached;
    var owned, others := Owned(Ports(s, k), parent), NotOwned(Ports(s, k), parent);
    OwnedPorts(Ports(s, k), parent);
    NotOwnedAre(Ports(s, k), parent);
    forall id: nat
      ensures Lists(item, id) <==> exists p :: p in Ports(s, k) && p.id == id && Reached(s, k, l, extra, p)
    {
      HitReached(owned, s, k, l, extra, false, id);
      HitReached(others, s, k, l, extra, true, id);
      assert Lists(item, id) <==> Holds(Hit(owned, s, k, Values(l, extra), false), id)
                                  || Holds(Hit(others, s, k, Values(l, extra), true), id);
    }
  }

  lemma NameCandidates(s: Snapshot, k: Kind, parent: nat, l: LivePort, item: PortItem)
    requires item.candidates == Candidates(Named(Owned(Ports(s, k), parent), l.name), NameSignal)
    ensures ListsNamed(s, k, parent, l, item)
  {
    hide Owned, Named, Fold, Candidates;
    OwnedPorts(Ports(s, k), parent);
    NamedMembers(Owned(Ports(s, k), parent), l.name);
    forall id: nat
      ensures Lists(item, id) <==> exists p :: SharesName(s, k, parent, l, p) && p.id == id
    {
      NamedCandidates(Named(Owned(Ports(s, k), parent), l.name), id);
      assert Lists(item, id) <==> Holds(item.candidates, id);
    }
  }

  /** What each candidate list that a verdict may show means. */
  lemma ListedAre(s: Snapshot, k: Kind, parent: nat, l: LivePort, extra: seq<IpText>, item: PortItem)
    ensures var local := Hit(Owned(Ports(s, k), parent), s, k, Values(l, extra), false);
            var foreign := Hit(NotOwned(Ports(s, k), parent), s, k, Values(l, extra), true);
            && (item.candidates == local ==> ListsOwnReached(s, k, parent, l, extra, item))
            && (item.candidates == local + foreign ==> ListsReached(s, k, l, extra, item))
    ensures item.candidates == Candidates(Named(Owned(Ports(s, k), parent), l.name), NameSignal) ==>
              ListsNamed(s, k, parent, l, item)
  {
    hide *;
    var local := Hit(Owned(Ports(s, k), parent), s, k, Values(l, extra), false);
    var foreign := Hit(NotOwned(Ports(s, k), parent), s, k, Values(l, extra), true);
    if item.candidates == local {
      LocalCandidates(s, k, parent, l, extra, item);
    }
    if item.candidates == local + foreign {
      AllCandidates(s, k, parent, l, extra, item);
    }
    if item.candidates == Candidates(Named(Owned(Ports(s, k), parent), l.name), NameSignal) {
      NameCandidates(s, k, parent, l, item);
    }
  }

  lemma NamedCandidates(ps: seq<Port>, id: nat)
    ensures Holds(Candidates(ps, NameSignal), id) <==> exists p :: p in ps && p.id == id
  {
    var found := Candidates(ps, NameSignal);
    if p :| p in ps && p.id == id {
      var i :| 0 <= i < |ps| && ps[i] == p;
      assert found[i] in found;
    }
    if c :| c in found && c.portId == id {
      var i :| 0 <= i < |found| && found[i] == c;
      assert ps[i] in ps;
    }
  }

  /**
   Without an identity match the verdict is exactly that: a conflict if and only if some discovered value is
   recorded outside the parent's interfaces, then ambiguity, then the sole interface that carries a value or
   else the name, then creation.
   */
  lemma VerdictIs(s: Snapshot, k: Kind, parent: nat, l: LivePort, extra: seq<IpText>)
    requires UniquePorts(Ports(s, k))
    ensures var item := CorrelatePort(s, k, parent, l, extra, []);
            Verdict(s, k, parent, l, extra, item) && item.name == l.name && !item.shared
  {
    hide Values, Hit, Owned, NotOwned, Named, HasConflict, HasDuplicate, Elsewhere, Repeated, NoneReached, NoneNamed,
         SoleReached, SoleNamed, Carries, Reached, Own, SharesName, Fold, ListsReached, ListsOwnReached, ListsNamed;
    ConflictIsElsewhere(s, k, parent, l, extra);
    ListedAre(s, k, parent, l, extra, CorrelatePort(s, k, parent, l, extra, []));
    DuplicateIsRepeated(s, l, extra);
    LocalIs(s, k, parent, l, extra);
    NamesAre(s, k, parent, l);
    var local := Hit(Owned(Ports(s, k), parent), s, k, Values(l, extra), false);
    var names := Named(Owned(Ports(s, k), parent), l.name);
    LocalExclusive(s, k, parent, l, extra);
    NamesExclusive(s, k, parent, l);
    if |local| == 1 {
      var p :| SoleReached(s, k, parent, l, extra, p) && Carries(s, k, l, extra, p, local[0]);
      SoleSameName(s, k, parent, l, extra, p, local[0]);
    }
  }

  /** None, one and several reached interfaces exclude each other. */
  lemma LocalExclusive(s: Snapshot, k: Kind, parent: nat, l: LivePort, extra: seq<IpText>)
    ensures forall p :: SoleReached(s, k, parent, l, extra, p) ==> !NoneReached(s, k, parent, l, extra)
    ensures forall p, r :: SoleReached(s, k, parent, l, extra, r) && Own(s, k, parent, p) && Reached(s, k, l, extra, p)
                           ==> p == r
    ensures forall p :: Own(s, k, parent, p) && Reached(s, k, l, extra, p) ==> !NoneReached(s, k, parent, l, extra)
  {
    hide Reached;
  }

  lemma NamesExclusive(s: Snapshot, k: Kind, parent: nat, l: LivePort)
    ensures forall p :: SoleNamed(s, k, parent, l, p) ==> !NoneNamed(s, k, parent, l)
    ensures forall p, r :: SoleNamed(s, k, parent, l, r) && SharesName(s, k, parent, l, p) ==> p == r
    ensures forall p :: SharesName(s, k, parent, l, p) ==> !NoneNamed(s, k, parent, l)
  {
    hide Own;
  }

  lemma SoleSameName(s: Snapshot, k: Kind, parent: nat, l: LivePort, extra: seq<IpText>, p: Port, c: PortCandidate)
    requires UniquePorts(Ports(s, k)) && SoleReached(s, k, parent, l, extra, p)
    requires Carries(s, k, l, extra, p, c)
    ensures SameName(Owned(Ports(s, k), parent), c.portId, l.name) <==> Fold(p.name) == Fold(l.name)
  {
    hide Fold, Owned, Reached;
    OwnedUnique(Ports(s, k), parent);
    assert p in Owned(Ports(s, k), parent);
  }

  /** An identity match decides alone: one record is kept, several are ambiguous. */
  lemma IdentityDecides(s: Snapshot, k: Kind, parent: nat, l: LivePort, extra: seq<IpText>, matches: seq<Port>)
    requires matches != []
    ensures var item := CorrelatePort(s, k, parent, l, extra, matches);
            && item.classification == (if |matches| == 1 then MatchExisting else PortAmbiguous)
            && |item.candidates| == |matches|
            && forall i :: 0 <= i < |matches| ==>
                 item.candidates[i] == PortCandidate(matches[i].id, {IdentitySignal}, false)
  {
    hide Values, Hit, Owned, NotOwned, Named, HasConflict, HasDuplicate;
  }

  /** The identity matches are exactly the ports of the highest rank, if that is a match at all. */
  lemma {:induction false} BestAre(inst: string, v: Guest, l: LivePort, ps: seq<Port>)
    requires SelectBest(inst, v, l, ps).Some?
    ensures var best := SelectBest(inst, v, l, ps).value;
            && (forall p :: p in ps ==> PortRank(inst, v, l, p).Some? && PortRank(inst, v, l, p).value <= best.rank)
            && (forall p :: p in best.ports <==>
                            p in ps && best.rank != NO_MATCH && PortRank(inst, v, l, p) == Some(best.rank))
            && (best.rank != NO_MATCH ==> best.ports != [])
  {
    hide PortRank;
    if ps != [] {
      var init, last := ps[..|ps| - 1], ps[|ps| - 1];
      BestAre(inst, v, l, init);
      assert forall p :: p in ps <==> p in init || p == last;
    }
  }

  // ------------------------------------------------------------- in the plan

  predicate Takes(item: PortItem) {
    item.classification == MatchExisting || item.classification == SafeReuse
  }

  /** Two items of the parent take one interface. */
  predicate TakenTwice(raws: seq<PortItem>, i: nat)
    requires i < |raws|
  {
    && Takes(raws[i])
    && exists j, c, d :: 0 <= j < |raws| && j != i && Takes(raws[j])
                         && c in raws[i].candidates && d in raws[j].candidates && c.portId == d.portId
  }

  /** Exactly the items that take an interface twice are taken back; nothing else changes. */
  predicate Settles(raws: seq<PortItem>, items: seq<PortItem>) {
    && |items| == |raws|
    && forall i :: 0 <= i < |raws| ==>
         items[i] == if TakenTwice(raws, i) then raws[i].(classification := PortAmbiguous, shared := true) else raws[i]
  }

  lemma MarkedSettles(raws: seq<PortItem>)
    ensures Settles(raws, MarkedPorts(raws))
  {
    forall i | 0 <= i < |raws|
      ensures PortContested(raws, i) <==> TakenTwice(raws, i)
    {
      ContestedIsTwice(raws, i);
    }
  }

  lemma ContestedIsTwice(raws: seq<PortItem>, i: nat)
    requires i < |raws|
    ensures PortContested(raws, i) <==> TakenTwice(raws, i)
  {
    if j, c, d :| 0 <= j < |raws| && j != i && Takes(raws[j])
                  && c in raws[i].candidates && d in raws[j].candidates && c.portId == d.portId {
      assert ClaimsPort(raws[j], c.portId);
    }
    if j, c :| 0 <= j < |raws| && j != i && c in raws[i].candidates && ClaimsPort(raws[j], c.portId) {
      var d :| d in raws[j].candidates && d.portId == c.portId;
    }
  }

  /** The addresses of a host interface, with the management address on the management interface. */
  function ManagementOf(h: Host, l: LivePort): seq<IpText> {
    if l.management && h.managementIp.Some? then [h.managementIp.value] else []
  }

  /** The result of one object: no interfaces unless managed, else one verdict per discovered interface. */
  ghost predicate ResultIs(o: Snapshot, inst: string, item: Item, l: Live, r: ObjectResult) {
    && r.kind == KindOf(l) && r.identity == IdentityOf(inst, l) && r.classification == item.classification
    && if item.classification != Managed || item.selected.None? then r.ports == []
       else exists raws :: RawsAre(o, inst, item.selected.value, l, raws) && Settles(raws, r.ports)
  }

  ghost predicate RawsAre(o: Snapshot, inst: string, parent: nat, l: Live, raws: seq<PortItem>) {
    match l
    case LiveHost(h) =>
      && |raws| == |h.ports|
      && forall i :: 0 <= i < |h.ports| ==>
           && raws[i].name == h.ports[i].name
           && Verdict(o, HostKind, parent, h.ports[i], ManagementOf(h, h.ports[i]), raws[i])
    case LiveVm(v) =>
      && |raws| == |v.ports|
      && forall i :: 0 <= i < |v.ports| ==> GuestPortIs(o, inst, parent, v, v.ports[i], raws[i])
  }

  /** A machine's interface is decided by its identity when some interface of the parent matches it. */
  ghost predicate GuestPortIs(o: Snapshot, inst: string, parent: nat, v: Guest, l: LivePort, raw: PortItem) {
    && raw.name == l.name
    && if exists p :: Own(o, VmKind, parent, p) && Matches(inst, v, l, p)
       then IdentityVerdict(o, inst, parent, v, l, raw) else Verdict(o, VmKind, parent, l, [], raw)
  }

  ghost predicate Matches(inst: string, v: Guest, l: LivePort, p: Port) {
    PortRank(inst, v, l, p).Some? && PortRank(inst, v, l, p).value != NO_MATCH
  }

  /** The best identity matches of the parent are the candidates: one is kept, several are ambiguous. */
  ghost predicate IdentityVerdict(o: Snapshot, inst: string, parent: nat, v: Guest, l: LivePort, raw: PortItem) {
    && raw.classification in {MatchExisting, PortAmbiguous}
    && (raw.classification == MatchExisting <==> |raw.candidates| == 1) && raw.candidates != []
    && forall id :: Lists(raw, id) <==> exists p :: BestMatch(o, inst, parent, v, l, p) && p.id == id
  }

  ghost predicate BestMatch(o: Snapshot, inst: string, parent: nat, v: Guest, l: LivePort, p: Port) {
    && Own(o, VmKind, parent, p) && Matches(inst, v, l, p)
    && forall q :: Own(o, VmKind, parent, q) && Matches(inst, v, l, q) ==>
         PortRank(inst, v, l, q).value <= PortRank(inst, v, l, p).value
  }

  /** The rank of an interface: its v2 identity first, then the v1 identity of the explicit legacy owner. */
  lemma PortRankIs(inst: string, v: Guest, l: LivePort, p: Port)
    requires PortRank(inst, v, l, p).Some?
    ensures var key := if l.externalId.Some? && l.externalId.value != "" then l.externalId.value else l.name;
            var own := SourceIdentity("esxi", inst, "vm-nic", v.externalId + ":" + key);
            PortRank(inst, v, l, p).value ==
              if p.identities.Entries? && V2(own) in p.identities.list then V2_MATCH
              else if p.identities.Entries? && v.legacyOwner
                      && exists e :: e in p.identities.list && e.Legacy? && e.source == "esxi"
                                     && e.sourceId == v.legacyId + ":" + l.name
              then LEGACY_MATCH else NO_MATCH
  {
    var key := if l.externalId.Some? && l.externalId.value != "" then l.externalId.value else l.name;
    RankMeans(p.identities, SourceIdentity("esxi", inst, "vm-nic", v.externalId + ":" + key),
              v.legacyId + ":" + l.name, v.legacyOwner);
  }

  lemma GuestRaw(o: Snapshot, inst: string, parent: nat, v: Guest, l: LivePort)
    requires UniquePorts(o.vmPorts) && SelectBest(inst, v, l, Owned(o.vmPorts, parent)).Some?
    ensures var best := SelectBest(inst, v, l, Owned(o.vmPorts, parent)).value.ports;
            var raw := CorrelatePort(o, VmKind, parent, l, [], best);
            GuestPortIs(o, inst, parent, v, l, raw)
  {
    hide PortRank, CorrelatePort, Verdict, Owned;
    var owned := Owned(o.vmPorts, parent);
    OwnedUnique(o.vmPorts, parent);
    BestAre(inst, v, l, owned);
    var best := SelectBest(inst, v, l, owned).value;
    VerdictIs(o, VmKind, parent, l, []);
    NamesKept(o, VmKind, parent, l, [], best.ports);
    if best.ports != [] {
      IdentityDecides(o, VmKind, parent, l, [], best.ports);
      assert best.ports[0] in best.ports;
      assert Own(o, VmKind, parent, best.ports[0]) && Matches(inst, v, l, best.ports[0]);
      BestListed(o, inst, parent, v, l, best.ports, CorrelatePort(o, VmKind, parent, l, [], best.ports));
    }
  }

  lemma BestListed(o: Snapshot, inst: string, parent: nat, v: Guest, l: LivePort, best: seq<Port>, raw: PortItem)
    requires forall p :: p in best <==> BestMatch(o, inst, parent, v, l, p)
    requires |raw.candidates| == |best|
    requires forall i :: 0 <= i < |best| ==> raw.candidates[i].portId == best[i].id
    ensures forall id :: Lists(raw, id) <==> exists p :: BestMatch(o, inst, parent, v, l, p) && p.id == id
  {
    hide BestMatch;
    forall id
      ensures Lists(raw, id) <==> exists p :: BestMatch(o, inst, parent, v, l, p) && p.id == id
    {
      if c :| c in raw.candidates && c.portId == id {
        var i :| 0 <= i < |raw.candidates| && raw.candidates[i] == c;
        assert best[i] in best;
      }
      if p :| BestMatch(o, inst, parent, v, l, p) && p.id == id {
        var i :| 0 <= i < |best| && best[i] == p;
        assert raw.candidates[i] in raw.candidates;
      }
    }
  }

  lemma NamesKept(s: Snapshot, k: Kind, parent: nat, l: LivePort, extra: seq<IpText>, matches: seq<Port>)
    ensures CorrelatePort(s, k, parent, l, extra, matches).name == l.name
  {
  }

  lemma {:induction false} GuestPortsAre(o: Snapshot, inst: string, parent: nat, v: Guest, ls: seq<LivePort>, i: nat)
    requires GuestPorts(o, inst, parent, v, ls).Some? && i < |ls|
    ensures |GuestPorts(o, inst, parent, v, ls).value| == |ls|
    ensures var best := SelectBest(inst, v, ls[i], Owned(o.vmPorts, parent));
            best.Some? && GuestPorts(o, inst, parent, v, ls).value[i]
                          == CorrelatePort(o, VmKind, parent, ls[i], [], best.value.ports)
  {
    hide SelectBest, CorrelatePort, Owned;
    if i < |ls| - 1 {
      GuestPortsAre(o, inst, parent, v, ls[..|ls| - 1], i);
    } else if |ls| > 1 {
      GuestPortsAre(o, inst, parent, v, ls[..|ls| - 1], 0);
    }
  }

  /** The result of one object is its adoption item carried over and one verdict per discovered interface. */
  lemma ResultVerdicts(o: Snapshot, inst: string, items: seq<Item>, l: Live)
    requires UniquePorts(o.hostPorts) && UniquePorts(o.vmPorts) && ResultOf(o, inst, items, l).Some?
    ensures ItemFor(items, IdentityOf(inst, l)).Some?
    ensures ResultIs(o, inst, ItemFor(items, IdentityOf(inst, l)).value, l, ResultOf(o, inst, items, l).value)
  {
    hide ItemFor, PortsOf, MarkedPorts, RawsAre, Settles;
    var item := ItemFor(items, IdentityOf(inst, l)).value;
    if item.classification == Managed && item.selected.Some? {
      var raws := PortsOf(o, inst, item.selected.value, l).value;
      RawPorts(o, inst, item.selected.value, l, raws);
      MarkedSettles(raws);
    }
  }

  lemma RawPorts(o: Snapshot, inst: string, parent: nat, l: Live, raws: seq<PortItem>)
    requires UniquePorts(o.hostPorts) && UniquePorts(o.vmPorts) && PortsOf(o, inst, parent, l) == Some(raws)
    ensures RawsAre(o, inst, parent, l, raws)
  {
    hide CorrelatePort, Verdict, GuestPortIs, GuestPorts, SelectBest, Owned;
    match l
    case LiveHost(h) =>
      forall i | 0 <= i < |h.ports|
        ensures raws[i].name == h.ports[i].name
        ensures Verdict(o, HostKind, parent, h.ports[i], ManagementOf(h, h.ports[i]), raws[i])
      {
        VerdictIs(o, HostKind, parent, h.ports[i], ManagementOf(h, h.ports[i]));
        assert raws[i] == CorrelatePort(o, HostKind, parent, h.ports[i], ManagementOf(h, h.ports[i]), []);
      }
    case LiveVm(v) =>
      if v.ports == [] {
        NoGuestPorts(o, inst, parent, v);
      } else {
        GuestPortsAre(o, inst, parent, v, v.ports, 0);
      }
      forall i | 0 <= i < |v.ports|
        ensures GuestPortIs(o, inst, parent, v, v.ports[i], raws[i])
      {
        GuestPortsAre(o, inst, parent, v, v.ports, i);
        GuestRaw(o, inst, parent, v, v.ports[i]);
      }
  }

  lemma NoGuestPorts(o: Snapshot, inst: string, parent: nat, v: Guest)
    ensures GuestPorts(o, inst, parent, v, []) == Some([])
  {
  }

  /** The item recorded last under the identity. */
  predicate LastItem(items: seq<Item>, id: SourceIdentity, k: nat) {
    k < |items| && items[k].identity == id && forall j :: k < j < |items| ==> items[j].identity != id
  }

  lemma {:induction false} ItemForIsLast(items: seq<Item>, id: SourceIdentity)
    ensures ItemFor(items, id).None? <==> forall k :: 0 <= k < |items| ==> items[k].identity != id
    ensures ItemFor(items, id).Some? ==>
              exists k: nat :: k < |items| && LastItem(items, id, k) && items[k] == ItemFor(items, id).value
  {
    hide LastItem;
    if items != [] {
      var init, last := items[..|items| - 1], items[|items| - 1];
      ItemForIsLast(init, id);
      if last.identity == id {
        assert LastItem(items, id, |items| - 1) by { EndsWith(items, id); }
      } else if ItemFor(init, id).Some? {
        var k: nat :| k < |init| && LastItem(init, id, k) && init[k] == ItemFor(init, id).value;
        StillLast(items, id, k);
      }
    }
  }

  lemma EndsWith(items: seq<Item>, id: SourceIdentity)
    requires items != [] && items[|items| - 1].identity == id
    ensures LastItem(items, id, |items| - 1)
  {
  }

  lemma StillLast(items: seq<Item>, id: SourceIdentity, k: nat)
    requires items != [] && items[|items| - 1].identity != id && LastItem(items[..|items| - 1], id, k)
    ensures LastItem(items, id, k)
  {
    forall j | k < j < |items|
      ensures items[j].identity != id
    {
      if j < |items| - 1 {
        assert items[..|items| - 1][j] == items[j];
      }
    }
  }

  /**
   The whole migration plan: one result per discovered object, in visiting order, each from the adoption item
   recorded last under its identity.
   */
  lemma PlanResults(s: Snapshot, o: Snapshot, t: Target, inst: string, hosts: seq<Host>, p: nat)
    requires UniquePorts(o.hostPorts) && UniquePorts(o.vmPorts)
    requires MigrationPlan(s, o, t, inst, hosts).Some? && p < |Visits(hosts)|
    ensures AdoptionItems(s, t, inst, hosts).Some?
    ensures |MigrationPlan(s, o, t, inst, hosts).value| == |Visits(hosts)|
    ensures var items, plan := AdoptionItems(s, t, inst, hosts).value, MigrationPlan(s, o, t, inst, hosts).value;
            exists k: nat :: LastItem(items, IdentityOf(inst, Visits(hosts)[p]), k)
                        && ResultIs(o, inst, items[k], Visits(hosts)[p], plan[p])
  {
    hide AdoptionItems, Visits, ItemFor, ResultOf, ResultIs, LastItem;
    var items := AdoptionItems(s, t, inst, hosts).value;
    ResultsLength(o, inst, items, Visits(hosts));
    ResultsAt(o, inst, items, Visits(hosts), p);
    ResultVerdicts(o, inst, items, Visits(hosts)[p]);
    ItemForIsLast(items, IdentityOf(inst, Visits(hosts)[p]));
  }

  // ---------------------------------------------------------------- acceptance

  /** A machine's interface meets a broken identity record on an interface of its parent. */
  ghost predicate Unreadable(o: Snapshot, inst: string, parent: nat, v: Guest) {
    exists l, p :: l in v.ports && Own(o, VmKind, parent, p) && PortBroken(inst, v, l, p)
  }

  predicate PortBroken(inst: string, v: Guest, l: LivePort, p: Port) {
    && p.identities.Entries?
    && var key := if l.externalId.Some? && l.externalId.value != "" then l.externalId.value else l.name;
       BrokenFirst(p.identities.list, SourceIdentity("esxi", inst, "vm-nic", v.externalId + ":" + key))
  }

  lemma RankFails(inst: string, v: Guest, l: LivePort, p: Port)
    ensures PortRank(inst, v, l, p).None? <==> PortBroken(inst, v, l, p)
  {
    if p.identities.Entries? {
      ScanFails(p.identities.list, SourceIdentity("esxi", inst, "vm-nic", v.externalId + ":" + PortKey(l)));
    }
  }

  /** A managed machine of the plan meets a broken record. */
  ghost predicate Blocks(o: Snapshot, inst: string, l: Live, item: Item) {
    && l.LiveVm? && item.classification == Managed && item.selected.Some?
    && Unreadable(o, inst, item.selected.value, l.vm)
  }

  lemma {:induction false} SelectFails(inst: string, v: Guest, l: LivePort, ps: seq<Port>)
    ensures SelectBest(inst, v, l, ps).None? <==> exists p :: p in ps && PortBroken(inst, v, l, p)
  {
    hide PortRank, PortBroken;
    if ps != [] {
      RankFails(inst, v, l, ps[|ps| - 1]);
      SelectFails(inst, v, l, ps[..|ps| - 1]);
      assert forall p :: p in ps <==> p in ps[..|ps| - 1] || p == ps[|ps| - 1];
    }
  }

  predicate Unselectable(o: Snapshot, inst: string, parent: nat, v: Guest, l: LivePort) {
    SelectBest(inst, v, l, Owned(o.vmPorts, parent)).None?
  }

  lemma {:induction false} GuestPortsFail(o: Snapshot, inst: string, parent: nat, v: Guest, ls: seq<LivePort>)
    ensures GuestPorts(o, inst, parent, v, ls).None? <==> exists l :: l in ls && Unselectable(o, inst, parent, v, l)
  {
    hide SelectBest, Owned, CorrelatePort;
    if ls != [] {
      var init, last := ls[..|ls| - 1], ls[|ls| - 1];
      GuestPortsFail(o, inst, parent, v, init);
      assert forall l :: l in ls <==> l in init || l == last;
      assert GuestPorts(o, inst, parent, v, ls).None? <==>
             GuestPorts(o, inst, parent, v, init).None? || Unselectable(o, inst, parent, v, last);
    }
  }

  lemma {:induction false} ResultsFail(o: Snapshot, inst: string, items: seq<Item>, ls: seq<Live>)
    ensures Results(o, inst, items, ls).None? <==> exists l :: l in ls && ResultOf(o, inst, items, l).None?
  {
    hide ResultOf;
    if ls != [] {
      ResultsFail(o, inst, items, ls[..|ls| - 1]);
      assert forall l :: l in ls <==> l in ls[..|ls| - 1] || l == ls[|ls| - 1];
    }
  }

  lemma ResultFails(o: Snapshot, inst: string, items: seq<Item>, l: Live, k: nat)
    requires LastItem(items, IdentityOf(inst, l), k) && ItemFor(items, IdentityOf(inst, l)) == Some(items[k])
    ensures ResultOf(o, inst, items, l).None? <==> Blocks(o, inst, l, items[k])
  {
    hide ItemFor, GuestPorts, PortBroken, SelectBest, Owned;
    if l.LiveVm? && items[k].selected.Some? {
      var parent := items[k].selected.value;
      GuestPortsFail(o, inst, parent, l.vm, l.vm.ports);
      OwnedPorts(o.vmPorts, parent);
      forall x | x in l.vm.ports
        ensures Unselectable(o, inst, parent, l.vm, x) <==>
                exists p :: Own(o, VmKind, parent, p) && PortBroken(inst, l.vm, x, p)
      {
        SelectFails(inst, l.vm, x, Owned(o.vmPorts, parent));
      }
    }
  }

  /** The plan exists exactly when the adoption plan does and no managed machine meets a broken record. */
  lemma PlanIsAccepted(s: Snapshot, o: Snapshot, t: Target, inst: string, hosts: seq<Host>)
    ensures MigrationPlan(s, o, t, inst, hosts).Some? <==>
            && AdoptionItems(s, t, inst, hosts).Some?
            && var items := AdoptionItems(s, t, inst, hosts).value;
               forall l, k: nat :: l in Visits(hosts) && LastItem(items, IdentityOf(inst, l), k) ==>
                 !Blocks(o, inst, l, items[k])
  {
    hide AdoptionItems, Visits, ItemFor, ResultOf, Blocks;
    if AdoptionItems(s, t, inst, hosts).Some? {
      var items, ls := AdoptionItems(s, t, inst, hosts).value, Visits(hosts);
      ResultsFail(o, inst, items, ls);
      forall l | l in ls
        ensures exists k: nat :: LastItem(items, IdentityOf(inst, l), k)
                            && ItemFor(items, IdentityOf(inst, l)) == Some(items[k])
      {
        VisitHasItem(s, t, inst, hosts, l);
        ItemForIsLast(items, IdentityOf(inst, l));
      }
      forall l, k: nat | l in ls && LastItem(items, IdentityOf(inst, l), k)
        ensures ResultOf(o, inst, items, l).None? <==> Blocks(o, inst, l, items[k])
      {
        var m: nat :| LastItem(items, IdentityOf(inst, l), m) && ItemFor(items, IdentityOf(inst, l)) == Some(items[m]);
        assert m == k;
        ResultFails(o, inst, items, l, k);
      }
    }
  }

  lemma VisitHasItem(s: Snapshot, t: Target, inst: string, hosts: seq<Host>, l: Live)
    requires AdoptionItems(s, t, inst, hosts).Some? && l in Visits(hosts)
    ensures exists k :: 0 <= k < |AdoptionItems(s, t, inst, hosts).value|
                        && AdoptionItems(s, t, inst, hosts).value[k].identity == IdentityOf(inst, l)
  {
    hide AdoptionItems, Visits, Classify;
    var i :| 0 <= i < |Visits(hosts)| && Visits(hosts)[i] == l;
    PlanItem(s, t, inst, hosts, i);
  }
}
