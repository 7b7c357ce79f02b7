/**
 Hardware anchors claimed by source rows and reservations, under the shared and exclusive admission
 lock and the per-anchor lock.
 */
module HostReservations {
  import opened Wrappers

  type Anchor = string
  type Source = string
  type Tid = nat

  // ------------------------------------------------------------------ anchors

  /** A recorded id after `_validated_host_hardware_uuid`. */
  datatype HostId = NotUuid | Uuid(anchor: Anchor)

  /** A host list element: not an object, or an object with an id. */
  datatype Recorded = NotObject | Object(id: HostId)

  datatype Mapping = NoMapping | BadHosts | Hosts(hosts: seq<Recorded>)

  /** `provider_identity`: absent, malformed, or naming a hardware UUID. */
  datatype Proof = NoProof | BadProof | Proof(hardware: Anchor)

  datatype Decision = NoDecision | Isolated | Observed(id: HostId)

  datatype Settings = Settings(mapping: Mapping, proof: Proof, decision: Decision)

  /** `esxi_anchor`: exactly one host with a hardware UUID. */
  function SoleHost(m: Mapping): Option<Anchor> {
    if m.Hosts? && |m.hosts| == 1 && m.hosts[0].Object? && m.hosts[0].id.Uuid? then Some(m.hosts[0].id.anchor) else None
  }

  /** No recorded host contradicts the verified UUID. */
  predicate Agrees(m: Mapping, a: Anchor) {
    match m
    case NoMapping => true
    case BadHosts => false
    case Hosts(hosts) => forall h :: h in hosts ==> h.Object? && (h.id.Uuid? ==> h.id.anchor == a)
  }

  /** `legacy_anchor`. */
  function LegacyAnchor(s: Settings): Option<Anchor> {
    match s.proof
    case BadProof => None
    case Proof(a) => if Agrees(s.mapping, a) then Some(a) else None
    case NoProof => SoleHost(s.mapping)
  }

  /** `registration_anchor`: an observed endpoint claims its anchor without proving ownership. */
  function RegistrationAnchor(s: Settings): Option<Anchor> {
    if LegacyAnchor(s).Some? then LegacyAnchor(s)
    else if s.decision.Observed? && s.decision.id.Uuid? then Some(s.decision.id.anchor)
    else None
  }

  /** A proof never hides a different hardware UUID recorded in the mapping. */
  lemma ProofHidesNothing(s: Settings, h: Recorded)
    requires s.proof.Proof? && LegacyAnchor(s).Some? && s.mapping.Hosts? && h in s.mapping.hosts && h.Object?
             && h.id.Uuid?
    ensures RegistrationAnchor(s) == Some(h.id.anchor)
  {
  }

  // -------------------------------------------------------------------- state

  datatype Row = Row(settings: Settings, enabled: bool, syncEnabled: bool)

  datatype Reservation = Reservation(source: Source, operation: string, actor: string)

  datatype Request = Request(anchor: Anchor, source: Source, operation: string, actor: string)

  /** A reviewed decision about a row of unknown identity. */
  datatype Choice = Isolate | Observe(anchor: Anchor)

  /** Where a transaction or guarded session stands; `held` says whether its locks survive. */
  datatype Thread =
    | ReserveLocked(request: Request)
    | ReserveReady(request: Request)
    | GuardLocked(request: Request)
    | GuardReady(request: Request, held: bool)
    | ConfirmLocked(source: Source, choice: Choice)
    | ConfirmReady(source: Source, choice: Choice)

  datatype State = State(
    sources: map<Source, Row>, archived: set<Source>, archivePending: bool, reservations: map<Anchor, Reservation>,
    shared: set<Tid>, exclusive: Option<Tid>, anchorLocks: map<Anchor, Tid>, threads: map<Tid, Thread>)

  const EMPTY := State(map[], {}, false, map[], {}, None, map[], map[])

  function Reserved(r: Request): Reservation {
    Reservation(r.source, r.operation, r.actor)
  }

  predicate Live(s: State, x: Source) {
    x in s.sources && x !in s.archived
  }

  predicate RowClaims(s: State, x: Source, a: Anchor) {
    Live(s, x) && RegistrationAnchor(s.sources[x].settings) == Some(a)
  }

  /** A live row or the unreleased reservation claims the anchor for the source. */
  predicate Claims(s: State, x: Source, a: Anchor) {
    RowClaims(s, x, a) || (a in s.reservations && s.reservations[a].source == x)
  }

  /** No anchor is claimed by two different sources. */
  ghost predicate Unshared(s: State) {
    forall a, x, y :: Claims(s, x, a) && Claims(s, y, a) ==> x == y
  }

  predicate Resolved(r: Row) {
    !r.enabled && !r.syncEnabled
      && (r.settings.decision.Isolated? || (r.settings.decision.Observed? && RegistrationAnchor(r.settings).Some?))
  }

  /** An enabled row of unknown identity blocks every admission. */
  predicate Unknown(s: State) {
    exists x :: x in s.sources && x !in s.archived && s.sources[x].enabled && LegacyAnchor(s.sources[x].settings).None?
      && !Resolved(s.sources[x])
  }

  predicate NoRowClaims(s: State, a: Anchor) {
    forall x :: x in s.sources ==> !RowClaims(s, x, a)
  }

  // -------------------------------------------------------------------- steps

  datatype Event =
    | ReserveLock(tid: Tid, request: Request)
    | ReserveCheck(tid: Tid)
    | ReserveCommit(tid: Tid)
    | GuardLock(tid: Tid, request: Request)
    | GuardCheck(tid: Tid)
    | LoseLocks(tid: Tid)
    | Register(tid: Tid, row: Row)
    | ConfirmLock(tid: Tid, source: Source, choice: Choice)
    | ConfirmCheck(tid: Tid)
    | ConfirmCommit(tid: Tid)
    | Finish(tid: Tid)
    | Archive(source: Source)
    | ArchivePending(pending: bool)

  predicate CanShare(s: State, tid: Tid, a: Anchor) {
    tid !in s.threads && s.exclusive.None? && a !in s.anchorLocks
  }

  function Shared(s: State, tid: Tid, a: Anchor, t: Thread): State {
    s.(shared := s.shared + {tid}, anchorLocks := s.anchorLocks[a := tid], threads := s.threads[tid := t])
  }

  function LocksOf(s: State, tid: Tid): map<Anchor, Tid> {
    map a | a in s.anchorLocks && s.anchorLocks[a] != tid :: s.anchorLocks[a]
  }

  function Unlocked(s: State, tid: Tid): State {
    s.(shared := s.shared - {tid}, anchorLocks := LocksOf(s, tid),
       exclusive := if s.exclusive == Some(tid) then None else s.exclusive)
  }

  /** End of the transaction or session: locks released. */
  function Ended(s: State, tid: Tid): State {
    Unlocked(s, tid).(threads := s.threads - {tid})
  }

  /** The checks of `reserve` under its locks. */
  predicate MayReserve(s: State, r: Request) {
    && !s.archivePending && NoRowClaims(s, r.anchor) && !Unknown(s)
    && (r.anchor in s.reservations ==> s.reservations[r.anchor] == Reserved(r))
  }

  /** The checks of `registration_guard` under its locks. */
  predicate MayRegister(s: State, r: Request) {
    && r.anchor in s.reservations && s.reservations[r.anchor] == Reserved(r)
    && !s.archivePending && NoRowClaims(s, r.anchor) && !Unknown(s)
  }

  /** The checks of `confirm` under the exclusive lock; only OBSERVE asks who else claims the anchor. */
  predicate MayConfirm(s: State, x: Source, choice: Choice) {
    && x in s.sources && RegistrationAnchor(s.sources[x].settings).None?
    && (choice.Observe? ==>
          && (forall y :: y in s.sources && y != x ==> !RowClaims(s, y, choice.anchor))
          && (choice.anchor in s.reservations ==> s.reservations[choice.anchor].source == x))
  }

  /** The row with its decision recorded, disabled and without a schedule. */
  function DecidedRow(r: Row, choice: Choice): Row {
    Row(r.settings.(decision := if choice.Observe? then Observed(Uuid(choice.anchor)) else Isolated), false, false)
  }

  function Step(s: State, e: Event): State {
    match e
    case ReserveLock(tid, r) => if CanShare(s, tid, r.anchor) then Shared(s, tid, r.anchor, ReserveLocked(r)) else s
    case ReserveCheck(tid) =>
      if tid !in s.threads || !s.threads[tid].ReserveLocked? then s
      else if MayReserve(s, s.threads[tid].request)
        then s.(threads := s.threads[tid := ReserveReady(s.threads[tid].request)])
      else Ended(s, tid)
    case ReserveCommit(tid) =>
      if tid !in s.threads || !s.threads[tid].ReserveReady? then s
      else
        var r := s.threads[tid].request;
        Ended(if r.anchor in s.reservations then s
          else s.(reservations := s.reservations[r.anchor := Reserved(r)]), tid)
    case GuardLock(tid, r) => if CanShare(s, tid, r.anchor) then Shared(s, tid, r.anchor, GuardLocked(r)) else s
    case GuardCheck(tid) =>
      if tid !in s.threads || !s.threads[tid].GuardLocked? then s
      else if MayRegister(s, s.threads[tid].request)
        then s.(threads := s.threads[tid := GuardReady(s.threads[tid].request, true)])
      else Ended(s, tid)
    case LoseLocks(tid) =>
      if tid !in s.threads || !s.threads[tid].GuardReady? then s
      else Unlocked(s, tid).(threads := s.threads[tid := s.threads[tid].(held := false)])
    case Register(tid, row) =>
      if tid !in s.threads || !s.threads[tid].GuardReady? then s
      else
        var r := s.threads[tid].request;
        if r.source in s.sources || RegistrationAnchor(row.settings) != Some(r.anchor) then s
        else s.(sources := s.sources[r.source := row])
    case ConfirmLock(tid, x, choice) =>
      if tid in s.threads || s.exclusive.Some? || s.shared != {} then s
      else s.(exclusive := Some(tid), threads := s.threads[tid := ConfirmLocked(x, choice)])
    case ConfirmCheck(tid) =>
      if tid !in s.threads || !s.threads[tid].ConfirmLocked? then s
      else
        var t := s.threads[tid];
        if MayConfirm(s, t.source, t.choice)
        then s.(threads := s.threads[tid := ConfirmReady(t.source, t.choice)]) else Ended(s, tid)
    case ConfirmCommit(tid) =>
      if tid !in s.threads || !s.threads[tid].ConfirmReady? then s
      else
        var t := s.threads[tid];
        if t.source !in s.sources then Ended(s, tid)
        else Ended(s.(sources := s.sources[t.source := DecidedRow(s.sources[t.source], t.choice)]), tid)
    case Finish(tid) => if tid in s.threads then Ended(s, tid) else s
    case Archive(x) => s.(archived := s.archived + {x})
    case ArchivePending(pending) => s.(archivePending := pending)
  }

  /** The tables as an earlier release left them, legacy rows of unknown identity included, and no one connected. */
  ghost predicate Quiet(s: State) {
    Unshared(s) && s.threads == map[] && s.shared == {} && s.exclusive.None? && s.anchorLocks == map[]
  }

  function RunFrom(start: State, events: seq<Event>): State {
    if events == [] then start else Step(RunFrom(start, events[..|events| - 1]), events[|events| - 1])
  }

  // ---------------------------------------------------------------- invariant

  predicate Holds(s: State, tid: Tid, a: Anchor) {
    tid in s.shared && a in s.anchorLocks && s.anchorLocks[a] == tid
  }

  /** The locks a thread relies on. */
  predicate HoldsLocks(s: State, tid: Tid, t: Thread) {
    match t
    case ReserveLocked(r) => Holds(s, tid, r.anchor)
    case ReserveReady(r) => Holds(s, tid, r.anchor)
    case GuardLocked(r) => Holds(s, tid, r.anchor)
    case GuardReady(r, held) => held ==> Holds(s, tid, r.anchor)
    case ConfirmLocked(_, _) => s.exclusive == Some(tid)
    case ConfirmReady(_, _) => s.exclusive == Some(tid)
  }

  predicate LocksHeld(s: State) {
    && (s.exclusive.Some? ==> s.shared == {})
    && forall tid :: tid in s.threads ==> HoldsLocks(s, tid, s.threads[tid])
  }

  /** What the transaction checked still holds when it acts. */
  predicate CheckHolds(s: State, t: Thread) {
    match t
    case ReserveReady(r) => if r.anchor in s.reservations then s.reservations[r.anchor] == Reserved(r)
      else NoRowClaims(s, r.anchor)
    case GuardReady(r, _) => r.anchor in s.reservations && s.reservations[r.anchor] == Reserved(r)
    case ConfirmReady(x, choice) => MayConfirm(s, x, choice)
    case _ => true
  }

  predicate ChecksHold(s: State) {
    forall tid :: tid in s.threads ==> CheckHolds(s, s.threads[tid])
  }

  ghost predicate Inv(s: State) {
    LocksHeld(s) && ChecksHold(s) && Unshared(s)
  }

  // ------------------------------------------------------------- preservation

  /** Tables, and so claims and checks, are untouched. */
  predicate SameTables(s: State, t: State) {
    t.sources == s.sources && t.archived == s.archived && t.reservations == s.reservations
  }

  lemma SameClaims(s: State, t: State)
    requires SameTables(s, t)
    ensures Unshared(s) ==> Unshared(t)
    ensures forall th :: CheckHolds(s, th) ==> CheckHolds(t, th)
  {
    assert forall x, a :: RowClaims(s, x, a) <==> RowClaims(t, x, a);
    assert forall x, a :: Claims(s, x, a) <==> Claims(t, x, a);
  }

  lemma EndedKeeps(s: State, tid: Tid)
    requires Inv(s)
    ensures Inv(Ended(s, tid))
  {
    hide CheckHolds, Unshared;
    SameClaims(s, Ended(s, tid));
  }

  lemma SharedKeeps(s: State, tid: Tid, a: Anchor, t: Thread)
    requires Inv(s) && CanShare(s, tid, a) && (t.ReserveLocked? || t.GuardLocked?) && t.request.anchor == a
    ensures Inv(Shared(s, tid, a, t))
  {
    hide Unshared;
    SameClaims(s, Shared(s, tid, a, t));
  }

  /** Moving a thread to a phase with the same locks whose check holds now. */
  lemma MovedKeeps(s: State, tid: Tid, t: Thread)
    requires Inv(s) && tid in s.threads && HoldsLocks(s, tid, t) && CheckHolds(s, t)
    ensures Inv(s.(threads := s.threads[tid := t]))
  {
    hide Unshared, CheckHolds;
    SameClaims(s, s.(threads := s.threads[tid := t]));
  }

  lemma ReserveReadyHolds(s: State, r: Request)
    requires MayReserve(s, r)
    ensures CheckHolds(s, ReserveReady(r))
  {
  }

  /** The new reservation is the anchor's only claim. */
  lemma ReserveKeeps(s: State, tid: Tid, r: Request)
    requires Inv(s) && tid in s.threads && s.threads[tid] == ReserveReady(r) && r.anchor !in s.reservations
    ensures Inv(s.(reservations := s.reservations[r.anchor := Reserved(r)]))
  {
    var t := s.(reservations := s.reservations[r.anchor := Reserved(r)]);
    assert CheckHolds(s, s.threads[tid]) && HoldsLocks(s, tid, s.threads[tid]);
    ReservedUnshared(s, r);
    forall other | other in t.threads
      ensures CheckHolds(t, t.threads[other])
    {
      assert HoldsLocks(s, other, s.threads[other]) && CheckHolds(s, s.threads[other]);
      SameRowClaims(s, t);
    }
  }

  lemma SameRowClaims(s: State, t: State)
    requires t.sources == s.sources && t.archived == s.archived
    ensures forall x, a :: RowClaims(s, x, a) <==> RowClaims(t, x, a)
    ensures forall a :: NoRowClaims(s, a) <==> NoRowClaims(t, a)
  {
  }

  lemma ReservedUnshared(s: State, r: Request)
    requires Unshared(s) && NoRowClaims(s, r.anchor) && r.anchor !in s.reservations
    ensures Unshared(s.(reservations := s.reservations[r.anchor := Reserved(r)]))
  {
    hide RegistrationAnchor;
    var t := s.(reservations := s.reservations[r.anchor := Reserved(r)]);
    SameRowClaims(s, t);
    hide RowClaims;
    forall a, x, y | Claims(t, x, a) && Claims(t, y, a)
      ensures x == y
    {
      if a != r.anchor {
        assert Claims(s, x, a) && Claims(s, y, a);
      } else {
        NobodyClaims(s, a, x);
        NobodyClaims(s, a, y);
      }
    }
  }

  lemma NobodyClaims(s: State, a: Anchor, x: Source)
    requires NoRowClaims(s, a)
    ensures !RowClaims(s, x, a)
  {
  }

  lemma LoseKeeps(s: State, tid: Tid, r: Request, held: bool)
    requires Inv(s) && tid in s.threads && s.threads[tid] == GuardReady(r, held)
    ensures Inv(Unlocked(s, tid).(threads := s.threads[tid := GuardReady(r, false)]))
  {
    hide Unshared;
    var t := Unlocked(s, tid).(threads := s.threads[tid := GuardReady(r, false)]);
    SameClaims(s, t);
    assert CheckHolds(s, s.threads[tid]);
    forall other | other in t.threads
      ensures HoldsLocks(t, other, t.threads[other]) && CheckHolds(t, t.threads[other])
    {
      if other != tid {
        assert HoldsLocks(s, other, s.threads[other]);
      }
    }
  }

  /** One row changes its claim to `a`, which nobody else claims. */
  lemma NewClaimUnshared(s: State, x: Source, row: Row, a: Anchor)
    requires Unshared(s) && RegistrationAnchor(row.settings) == Some(a)
    requires x in s.sources ==> RegistrationAnchor(s.sources[x].settings).None?
    requires forall y :: Claims(s, y, a) ==> y == x
    ensures Unshared(s.(sources := s.sources[x := row]))
  {
    hide RegistrationAnchor;
    var t := s.(sources := s.sources[x := row]);
    forall b, y | Claims(t, y, b)
      ensures Claims(s, y, b) || (y == x && b == a)
    {
    }
    hide Claims;
    assert forall b, y :: Claims(t, y, b) ==> Claims(s, y, b) || (y == x && b == a);
  }

  /** The guarded registration inserts the reserved source; the reservation alone fences other claims. */
  lemma RegisterKeeps(s: State, tid: Tid, r: Request, held: bool, row: Row)
    requires Inv(s) && tid in s.threads && s.threads[tid] == GuardReady(r, held)
    requires r.source !in s.sources && RegistrationAnchor(row.settings) == Some(r.anchor)
    ensures Inv(s.(sources := s.sources[r.source := row]))
  {
    var t := s.(sources := s.sources[r.source := row]);
    assert CheckHolds(s, s.threads[tid]);
    assert Claims(s, r.source, r.anchor);
    assert forall y :: Claims(s, y, r.anchor) ==> y == r.source;
    NewClaimUnshared(s, r.source, row, r.anchor);
    forall other | other in t.threads
      ensures CheckHolds(t, t.threads[other])
    {
      assert CheckHolds(s, s.threads[other]);
      RegisteredCheck(s, r, row, s.threads[other]);
    }
  }

  lemma RegisteredCheck(s: State, r: Request, row: Row, th: Thread)
    requires r.anchor in s.reservations && s.reservations[r.anchor] == Reserved(r) && r.source !in s.sources
    requires RegistrationAnchor(row.settings) == Some(r.anchor) && CheckHolds(s, th)
    ensures CheckHolds(s.(sources := s.sources[r.source := row]), th)
  {
  }

  /** A row that claims nothing before and after leaves all claims as they are. */
  lemma NoClaimUnshared(s: State, x: Source, row: Row)
    requires Unshared(s) && x in s.sources
    requires RegistrationAnchor(s.sources[x].settings).None? && RegistrationAnchor(row.settings).None?
    ensures Unshared(s.(sources := s.sources[x := row]))
  {
    hide RegistrationAnchor;
    var t := s.(sources := s.sources[x := row]);
    assert forall b, y :: Claims(t, y, b) ==> Claims(s, y, b);
  }

  lemma DecidedUnshared(s: State, x: Source, choice: Choice)
    requires Unshared(s) && MayConfirm(s, x, choice)
    ensures Unshared(s.(sources := s.sources[x := DecidedRow(s.sources[x], choice)]))
  {
    var row := DecidedRow(s.sources[x], choice);
    match choice
    case Isolate => NoClaimUnshared(s, x, row);
    case Observe(a) =>
      ObservedAnchor(s.sources[x], a);
      assert forall y :: Claims(s, y, a) ==> y == x;
      NewClaimUnshared(s, x, row, a);
  }

  /** A decision under the exclusive lock: ISOLATE claims nothing, OBSERVE an anchor nobody else claims. */
  lemma ObserveKeeps(s: State, tid: Tid, x: Source, choice: Choice)
    requires Inv(s) && tid in s.threads && s.threads[tid] == ConfirmReady(x, choice)
    ensures x in s.sources && Inv(Ended(s.(sources := s.sources[x := DecidedRow(s.sources[x], choice)]), tid))
  {
    assert CheckHolds(s, s.threads[tid]) && HoldsLocks(s, tid, s.threads[tid]);
    var t := s.(sources := s.sources[x := DecidedRow(s.sources[x], choice)]);
    DecidedUnshared(s, x, choice);
    var u := Ended(t, tid);
    SameClaims(t, u);
    forall other | other in u.threads
      ensures HoldsLocks(u, other, u.threads[other]) && CheckHolds(u, u.threads[other])
    {
      assert HoldsLocks(s, other, s.threads[other]) && CheckHolds(s, s.threads[other]);
      OnlyLostGuards(s, other);
    }
  }

  /** While the exclusive lock is held, other threads are guards that lost their session. */
  lemma OnlyLostGuards(s: State, other: Tid)
    requires LocksHeld(s) && s.exclusive.Some? && other in s.threads && s.exclusive != Some(other)
    ensures s.threads[other].GuardReady? && !s.threads[other].held
  {
  }

  lemma ObservedAnchor(r: Row, a: Anchor)
    requires RegistrationAnchor(r.settings).None?
    ensures RegistrationAnchor(DecidedRow(r, Observe(a)).settings) == Some(a)
  {
  }

  lemma ArchiveKeeps(s: State, x: Source)
    requires Inv(s)
    ensures Inv(s.(archived := s.archived + {x}))
  {
    hide RegistrationAnchor;
    var t := s.(archived := s.archived + {x});
    assert forall y, a :: RowClaims(t, y, a) ==> RowClaims(s, y, a);
    assert forall y, a :: Claims(t, y, a) ==> Claims(s, y, a);
    forall tid | tid in t.threads
      ensures CheckHolds(t, t.threads[tid])
    {
      assert CheckHolds(s, s.threads[tid]);
    }
  }

  lemma ConfirmLockKeeps(s: State, tid: Tid, x: Source, choice: Choice)
    requires Inv(s) && tid !in s.threads && s.exclusive.None? && s.shared == {}
    ensures Inv(s.(exclusive := Some(tid), threads := s.threads[tid := ConfirmLocked(x, choice)]))
  {
    hide Unshared;
    var t := s.(exclusive := Some(tid), threads := s.threads[tid := ConfirmLocked(x, choice)]);
    SameClaims(s, t);
    forall other | other in t.threads
      ensures HoldsLocks(t, other, t.threads[other]) && CheckHolds(t, t.threads[other])
    {
      if other != tid {
        assert HoldsLocks(s, other, s.threads[other]) && CheckHolds(s, s.threads[other]);
      }
    }
  }

  lemma ReserveStepKeeps(s: State, e: Event)
    requires Inv(s) && (e.ReserveLock? || e.ReserveCheck? || e.ReserveCommit?)
    ensures Inv(Step(s, e))
  {
    hide Inv, CheckHolds, MayReserve, Ended, Shared;
    match e
    case ReserveLock(tid, r) => if CanShare(s, tid, r.anchor) { SharedKeeps(s, tid, r.anchor, ReserveLocked(r)); }
    case ReserveCheck(tid) =>
      if tid in s.threads && s.threads[tid].ReserveLocked? {
        var r := s.threads[tid].request;
        if MayReserve(s, r) {
          ReserveReadyHolds(s, r);
          LocksOfThread(s, tid);
          MovedKeeps(s, tid, ReserveReady(r));
        } else {
          EndedKeeps(s, tid);
        }
      }
    case ReserveCommit(tid) =>
      if tid in s.threads && s.threads[tid].ReserveReady? {
        var r := s.threads[tid].request;
        if r.anchor !in s.reservations {
          ReserveKeeps(s, tid, r);
        }
        EndedKeeps(if r.anchor in s.reservations then s
          else s.(reservations := s.reservations[r.anchor := Reserved(r)]), tid);
      }
  }

  lemma LocksOfThread(s: State, tid: Tid)
    requires Inv(s) && tid in s.threads
    ensures HoldsLocks(s, tid, s.threads[tid])
  {
  }

  lemma GuardStepKeeps(s: State, e: Event)
    requires Inv(s) && (e.GuardLock? || e.GuardCheck? || e.LoseLocks? || e.Register?)
    ensures Inv(Step(s, e))
  {
    hide Inv, Ended, Shared, Unlocked, NoRowClaims, Unknown;
    match e
    case GuardLock(tid, r) => if CanShare(s, tid, r.anchor) { SharedKeeps(s, tid, r.anchor, GuardLocked(r)); }
    case GuardCheck(tid) =>
      if tid in s.threads && s.threads[tid].GuardLocked? {
        var r := s.threads[tid].request;
        if MayRegister(s, r) {
          LocksOfThread(s, tid);
          MovedKeeps(s, tid, GuardReady(r, true));
        } else {
          EndedKeeps(s, tid);
        }
      }
    case LoseLocks(tid) =>
      if tid in s.threads && s.threads[tid].GuardReady? {
        LoseKeeps(s, tid, s.threads[tid].request, s.threads[tid].held);
      }
    case Register(tid, row) =>
      if tid in s.threads && s.threads[tid].GuardReady? {
        var r := s.threads[tid].request;
        if r.source !in s.sources && RegistrationAnchor(row.settings) == Some(r.anchor) {
          RegisterKeeps(s, tid, r, s.threads[tid].held, row);
        }
      }
  }

  lemma ConfirmStepKeeps(s: State, e: Event)
    requires Inv(s) && (e.ConfirmLock? || e.ConfirmCheck? || e.ConfirmCommit?)
    ensures Inv(Step(s, e))
  {
    hide Inv, Ended, MayConfirm;
    match e
    case ConfirmLock(tid, x, choice) =>
      if !(tid in s.threads || s.exclusive.Some? || s.shared != {}) {
        ConfirmLockKeeps(s, tid, x, choice);
      }
    case ConfirmCheck(tid) =>
      if tid in s.threads && s.threads[tid].ConfirmLocked? {
        var t := s.threads[tid];
        if MayConfirm(s, t.source, t.choice) {
          LocksOfThread(s, tid);
          MovedKeeps(s, tid, ConfirmReady(t.source, t.choice));
        } else {
          EndedKeeps(s, tid);
        }
      }
    case ConfirmCommit(tid) =>
      if tid in s.threads && s.threads[tid].ConfirmReady? {
        ObserveKeeps(s, tid, s.threads[tid].source, s.threads[tid].choice);
      }
  }

  lemma StepKeeps(s: State, e: Event)
    requires Inv(s)
    ensures Inv(Step(s, e))
  {
    hide Inv;
    if e.ReserveLock? || e.ReserveCheck? || e.ReserveCommit? {
      ReserveStepKeeps(s, e);
    } else if e.GuardLock? || e.GuardCheck? || e.LoseLocks? || e.Register? {
      GuardStepKeeps(s, e);
    } else if e.ConfirmLock? || e.ConfirmCheck? || e.ConfirmCommit? {
      ConfirmStepKeeps(s, e);
    } else if e.Finish? {
      if e.tid in s.threads { EndedKeeps(s, e.tid); }
    } else if e.Archive? {
      ArchiveKeeps(s, e.source);
    } else {
      PendingKeeps(s, e.pending);
    }
  }

  lemma PendingKeeps(s: State, pending: bool)
    requires Inv(s)
    ensures Inv(s.(archivePending := pending))
  {
    hide Unshared, CheckHolds;
    SameClaims(s, s.(archivePending := pending));
  }

  lemma {:induction false} RunKeeps(start: State, events: seq<Event>)
    requires Quiet(start)
    ensures Inv(RunFrom(start, events))
  {
    hide Step;
    if events != [] {
      RunKeeps(start, events[..|events| - 1]);
      StepKeeps(RunFrom(start, events[..|events| - 1]), events[|events| - 1]);
    }
  }

  /**
   From any tables in which no anchor is shared, rows of unknown identity included, and over every
   interleaving of reservations, guarded registrations that may lose their session, ISOLATE and OBSERVE
   decisions and archivals: no hardware anchor is claimed by two different sources.
   */
  lemma NoAnchorIsShared(start: State, events: seq<Event>, a: Anchor, x: Source, y: Source)
    requires Quiet(start) && Claims(RunFrom(start, events), x, a) && Claims(RunFrom(start, events), y, a)
    ensures x == y
  {
    hide RunFrom, Claims;
    RunKeeps(start, events);
  }

  /** OBSERVE does commit: a legacy row of unknown identity ends as the only claimant of a free anchor. */
  lemma ObserveCommits(start: State, tid: Tid, x: Source, a: Anchor)
    requires Quiet(start) && MayConfirm(start, x, Observe(a)) && Live(start, x)
    ensures var done := RunFrom(start, [ConfirmLock(tid, x, Observe(a)), ConfirmCheck(tid), ConfirmCommit(tid)]);
            && !RowClaims(start, x, a) && RowClaims(done, x, a) && Quiet(done)
            && forall y :: Claims(done, y, a) <==> y == x
  {
    var events := [ConfirmLock(tid, x, Observe(a)), ConfirmCheck(tid), ConfirmCommit(tid)];
    RunOfThree(start, events[0], events[1], events[2]);
    ConfirmRun(start, tid, x, Observe(a));
    MayConfirmIs(start, x, Observe(a));
    ObservedAnchor(start.sources[x], a);
    RunKeeps(start, events);
    hide Step, RunFrom, DecidedRow, RegistrationAnchor;
  }

  lemma RunOfThree(start: State, a: Event, b: Event, c: Event)
    ensures RunFrom(start, [a, b, c]) == Step(Step(Step(start, a), b), c)
  {
    hide Step;
    var events := [a, b, c];
    assert events[..2] == [a, b] && events[..2][..1] == [a] && events[..1][..0] == [];
    assert RunFrom(start, [a]) == Step(start, a);
    assert RunFrom(start, [a, b]) == Step(RunFrom(start, [a]), b);
  }

  /** Such a start exists: one enabled legacy row that records nothing about its host. */
  lemma LegacyRowIsQuiet(x: Source, a: Anchor)
    ensures var row := Row(Settings(NoMapping, NoProof, NoDecision), true, true);
            var start := EMPTY.(sources := map[x := row]);
            Quiet(start) && Unknown(start) && Live(start, x) && MayConfirm(start, x, Observe(a))
  {
    var row := Row(Settings(NoMapping, NoProof, NoDecision), true, true);
    var start := EMPTY.(sources := map[x := row]);
    assert x in start.sources && x !in start.archived && start.sources[x].enabled;
  }

  // -------------------------------------------------- whole transactions

  /** Every lock belongs to a transaction or session that is still there. */
  predicate LocksOwned(s: State) {
    && (forall tid :: tid in s.shared ==> tid in s.threads)
    && (forall a :: a in s.anchorLocks ==> s.anchorLocks[a] in s.threads)
    && (s.exclusive.Some? ==> s.exclusive.value in s.threads)
  }

  lemma {:induction false} LocksAreOwned(start: State, events: seq<Event>)
    requires Quiet(start)
    ensures LocksOwned(RunFrom(start, events))
  {
    hide Step;
    if events != [] {
      LocksAreOwned(start, events[..|events| - 1]);
      StepOwns(RunFrom(start, events[..|events| - 1]), events[|events| - 1]);
    }
  }

  lemma StepOwns(s: State, e: Event)
    requires LocksOwned(s)
    ensures LocksOwned(Step(s, e))
  {
    hide MayReserve, MayRegister, MayConfirm, RegistrationAnchor, DecidedRow, Ended, LocksOwned;
    match e
    case ReserveLock(tid, r) => SharedOwns(s, tid, r.anchor, ReserveLocked(r));
    case ReserveCheck(tid) =>
      if tid in s.threads && s.threads[tid].ReserveLocked? {
        EndedOwns(s, tid);
        MovedOwns(s, tid, ReserveReady(s.threads[tid].request));
      }
    case ReserveCommit(tid) =>
      if tid in s.threads && s.threads[tid].ReserveReady? {
        var r := s.threads[tid].request;
        EndedOwns(s, tid);
        EndedReserved(s, tid, s.reservations[r.anchor := Reserved(r)]);
        StillOwned(Ended(s, tid), Ended(s, tid).(reservations := s.reservations[r.anchor := Reserved(r)]));
      }
    case GuardLock(tid, r) => SharedOwns(s, tid, r.anchor, GuardLocked(r));
    case GuardCheck(tid) =>
      if tid in s.threads && s.threads[tid].GuardLocked? {
        EndedOwns(s, tid);
        MovedOwns(s, tid, GuardReady(s.threads[tid].request, true));
      }
    case LoseLocks(tid) =>
      if tid in s.threads && s.threads[tid].GuardReady? {
        MovedOwns(s, tid, s.threads[tid].(held := false));
      }
    case Register(tid, row) =>
      if tid in s.threads && s.threads[tid].GuardReady? {
        StillOwned(s, s.(sources := s.sources[s.threads[tid].request.source := row]));
      }
    case ConfirmLock(tid, x, choice) => ExclusiveOwns(s, tid, ConfirmLocked(x, choice));
    case ConfirmCheck(tid) =>
      if tid in s.threads && s.threads[tid].ConfirmLocked? {
        EndedOwns(s, tid);
        MovedOwns(s, tid, ConfirmReady(s.threads[tid].source, s.threads[tid].choice));
      }
    case ConfirmCommit(tid) =>
      if tid in s.threads && s.threads[tid].ConfirmReady? {
        EndedOwns(s, tid);
        var t := s.threads[tid];
        if t.source in s.sources {
          var m := s.sources[t.source := DecidedRow(s.sources[t.source], t.choice)];
          EndedSources(s, tid, m);
          StillOwned(Ended(s, tid), Ended(s, tid).(sources := m));
        }
      }
    case Finish(tid) => EndedOwns(s, tid);
    case Archive(x) => StillOwned(s, s.(archived := s.archived + {x}));
    case ArchivePending(pending) => StillOwned(s, s.(archivePending := pending));
  }

  lemma SharedOwns(s: State, tid: Tid, a: Anchor, t: Thread)
    requires LocksOwned(s)
    ensures LocksOwned(Shared(s, tid, a, t))
  {
  }

  lemma ExclusiveOwns(s: State, tid: Tid, t: Thread)
    requires LocksOwned(s)
    ensures LocksOwned(s.(exclusive := Some(tid), threads := s.threads[tid := t]))
  {
  }

  lemma EndedOwns(s: State, tid: Tid)
    requires LocksOwned(s)
    ensures LocksOwned(Ended(s, tid))
  {
  }

  lemma MovedOwns(s: State, tid: Tid, t: Thread)
    requires LocksOwned(s)
    ensures LocksOwned(s.(threads := s.threads[tid := t]))
    ensures LocksOwned(Unlocked(s, tid).(threads := s.threads[tid := t]))
  {
  }

  /** Ending gives back what the shared admission took. */
  lemma SharedEnds(s: State, tid: Tid, a: Anchor, t: Thread)
    requires LocksOwned(s) && CanShare(s, tid, a)
    ensures Ended(Shared(s, tid, a, t), tid) == s
  {
    var u := Shared(s, tid, a, t);
    assert LocksOf(u, tid) == s.anchorLocks;
    assert u.shared - {tid} == s.shared && u.threads - {tid} == s.threads;
  }

  lemma ExclusiveEnds(s: State, tid: Tid, t: Thread)
    requires LocksOwned(s) && tid !in s.threads && s.exclusive.None?
    ensures Ended(s.(exclusive := Some(tid), threads := s.threads[tid := t]), tid) == s
  {
    var u := s.(exclusive := Some(tid), threads := s.threads[tid := t]);
    assert LocksOf(u, tid) == s.anchorLocks;
    assert u.shared - {tid} == s.shared && u.threads - {tid} == s.threads;
  }

  /** The phases of a thread only change where the thread stands. */
  lemma EndedForgets(s: State, tid: Tid, t: Thread)
    ensures Ended(s.(threads := s.threads[tid := t]), tid) == Ended(s, tid)
  {
    assert s.threads[tid := t] - {tid} == s.threads - {tid};
    assert LocksOf(s.(threads := s.threads[tid := t]), tid) == LocksOf(s, tid);
  }

  lemma EndedReserved(s: State, tid: Tid, m: map<Anchor, Reservation>)
    ensures Ended(s.(reservations := m), tid) == Ended(s, tid).(reservations := m)
  {
    assert LocksOf(s.(reservations := m), tid) == LocksOf(s, tid);
  }

  lemma EndedSources(s: State, tid: Tid, m: map<Source, Row>)
    ensures Ended(s.(sources := m), tid) == Ended(s, tid).(sources := m)
  {
    assert LocksOf(s.(sources := m), tid) == LocksOf(s, tid);
  }

  /** The lock is free, the anchor is free, and a standing reservation is the caller's own. */
  predicate Reservable(s: State, r: Request) {
    && s.exclusive.None? && r.anchor !in s.anchorLocks && AnchorIsFree(s, r.anchor)
    && (r.anchor in s.reservations ==> s.reservations[r.anchor] == Reservation(r.source, r.operation, r.actor))
  }

  /** The lock is free, the anchor is free and reserved by the caller, and the new row names it. */
  predicate Registrable(s: State, r: Request, row: Row) {
    && s.exclusive.None? && r.anchor !in s.anchorLocks && AnchorIsFree(s, r.anchor)
    && r.anchor in s.reservations && s.reservations[r.anchor] == Reservation(r.source, r.operation, r.actor)
    && r.source !in s.sources && RegistrationAnchor(row.settings) == Some(r.anchor)
  }

  /** Nobody is admitted, the row claims nothing, and nobody else claims what it shall observe. */
  ghost predicate Confirmable(s: State, x: Source, choice: Choice) {
    && s.exclusive.None? && s.shared == {}
    && x in s.sources && RegistrationAnchor(s.sources[x].settings).None?
    && (choice.Observe? ==> forall y :: y != x ==> !Claims(s, y, choice.anchor))
  }

  /** An uninterrupted reservation takes the free anchor, and otherwise leaves everything as it was, locks included. */
  lemma ReserveRun(s: State, tid: Tid, r: Request)
    requires LocksOwned(s) && tid !in s.threads
    ensures var done := Step(Step(Step(s, ReserveLock(tid, r)), ReserveCheck(tid)), ReserveCommit(tid));
            done == if Reservable(s, r) then s.(reservations := s.reservations[r.anchor := Reserved(r)]) else s
  {
    hide LocksOwned, NoRowClaims, Unknown, AnchorIsFree, Ended;
    if CanShare(s, tid, r.anchor) {
      var locked := Shared(s, tid, r.anchor, ReserveLocked(r));
      FreeIs(s, r.anchor);
      SameAnswers(s, locked, r);
      SharedEnds(s, tid, r.anchor, ReserveLocked(r));
      EndedForgets(locked, tid, ReserveReady(r));
      var ready := locked.(threads := locked.threads[tid := ReserveReady(r)]);
      EndedReserved(ready, tid, s.reservations[r.anchor := Reserved(r)]);
      OwnAgain(s.reservations, r);
      StaysEnded(s, tid);
    } else {
      StaysEnded(s, tid);
    }
  }

  lemma OwnAgain(m: map<Anchor, Reservation>, r: Request)
    ensures r.anchor in m && m[r.anchor] == Reserved(r) ==> m[r.anchor := Reserved(r)] == m
  {
  }

  /** A thread that is not there takes no step of a transaction. */
  lemma StaysEnded(s: State, tid: Tid)
    requires tid !in s.threads
    ensures Step(s, ReserveCheck(tid)) == s && Step(s, ReserveCommit(tid)) == s
    ensures Step(s, GuardCheck(tid)) == s && Step(s, Finish(tid)) == s
    ensures forall row :: Step(s, Event.Register(tid, row)) == s
    ensures Step(s, ConfirmCheck(tid)) == s && Step(s, ConfirmCommit(tid)) == s
  {
  }

  /** An uninterrupted guarded registration inserts the reserved source, or leaves everything as it was. */
  lemma RegisterRun(s: State, tid: Tid, r: Request, row: Row)
    requires LocksOwned(s) && tid !in s.threads
    ensures var checked := Step(Step(s, GuardLock(tid, r)), GuardCheck(tid));
            var done := Step(Step(checked, Event.Register(tid, row)), Finish(tid));
            done == if Registrable(s, r, row) then s.(sources := s.sources[r.source := row]) else s
  {
    hide LocksOwned, NoRowClaims, Unknown, AnchorIsFree, Ended, RegistrationAnchor;
    if CanShare(s, tid, r.anchor) {
      var locked := Shared(s, tid, r.anchor, GuardLocked(r));
      FreeIs(s, r.anchor);
      SameAnswers(s, locked, r);
      SharedEnds(s, tid, r.anchor, GuardLocked(r));
      EndedForgets(locked, tid, GuardReady(r, true));
      var ready := locked.(threads := locked.threads[tid := GuardReady(r, true)]);
      EndedSources(ready, tid, s.sources[r.source := row]);
    }
    StaysEnded(s, tid);
  }

  /** An uninterrupted decision changes the one row, or leaves everything as it was. */
  lemma ConfirmRun(s: State, tid: Tid, x: Source, choice: Choice)
    requires LocksOwned(s) && tid !in s.threads
    ensures var done := Step(Step(Step(s, ConfirmLock(tid, x, choice)), ConfirmCheck(tid)), ConfirmCommit(tid));
            done == if Confirmable(s, x, choice) then s.(sources := s.sources[x := DecidedRow(s.sources[x], choice)])
                    else s
  {
    hide LocksOwned, MayConfirm, Claims, RegistrationAnchor, Ended, DecidedRow;
    MayConfirmIs(s, x, choice);
    if s.exclusive.None? && s.shared == {} {
      var locked := s.(exclusive := Some(tid), threads := s.threads[tid := ConfirmLocked(x, choice)]);
      SameConfirm(s, locked, x, choice);
      ExclusiveEnds(s, tid, ConfirmLocked(x, choice));
      EndedForgets(locked, tid, ConfirmReady(x, choice));
      if x in s.sources {
        var ready := locked.(threads := locked.threads[tid := ConfirmReady(x, choice)]);
        EndedSources(ready, tid, s.sources[x := DecidedRow(s.sources[x], choice)]);
      }
    }
    StaysEnded(s, tid);
  }

  // -------------------------------------------------------------- as it runs

  /** The registry tables and the advisory locks of one database. */
  class HostRegistry {
    var state: State

    constructor (start: State)
      requires Quiet(start)
      ensures state == start && Inv(state) && LocksOwned(state)
    {
      state := start;
    }

    /** `reserve` as one uninterrupted transaction: shared lock, anchor lock, checks, insert. */
    method Reserve(tid: Tid, r: Request) returns (ok: bool)
      requires Inv(state) && LocksOwned(state) && tid !in state.threads
      modifies this
      ensures Inv(state) && LocksOwned(state)
      ensures ok <==> Reservable(old(state), r)
      ensures state == if ok then old(state).(reservations := old(state).reservations[r.anchor := Reserved(r)])
                       else old(state)
      ensures ok ==> forall x :: Claims(state, x, r.anchor) <==> x == r.source
    {
      FreeIs(state, r.anchor);
      SharedEndsIf(state, tid, r.anchor, ReserveLocked(r));
      hide Inv, NoRowClaims, Unknown, Claims, Ended, CheckHolds, HoldsLocks, AnchorIsFree, LocksOwned;
      ok := false;
      if !CanShare(state, tid, r.anchor) {
        return;
      }
      ghost var start := state;
      SharedKeeps(state, tid, r.anchor, ReserveLocked(r));
      state := Shared(state, tid, r.anchor, ReserveLocked(r));
      SameAnswers(start, state, r);
      if state.archivePending || !NoRowClaims(state, r.anchor) || Unknown(state) {
        state := Ended(state, tid);
        return;
      }
      if r.anchor in state.reservations && state.reservations[r.anchor] != Reserved(r) {
        state := Ended(state, tid);
        return;
      }
      ReadyToReserve(state, tid, r);
      EndedForgets(state, tid, ReserveReady(r));
      state := state.(threads := state.threads[tid := ReserveReady(r)]);
      EndedReserved(state, tid, start.reservations[r.anchor := Reserved(r)]);
      OwnAgain(start.reservations, r);
      if r.anchor !in state.reservations {
        ReserveKeeps(state, tid, r);
        state := state.(reservations := state.reservations[r.anchor := Reserved(r)]);
      }
      EndedKeeps(state, tid);
      state := Ended(state, tid);
      StillOwned(start, state);
      OnlyClaimant(state, r);
      ok := true;
    }

    /** `registration_guard` around one registration, uninterrupted: locks, checks, insert, release. */
    method Register(tid: Tid, r: Request, row: Row) returns (ok: bool)
      requires Inv(state) && LocksOwned(state) && tid !in state.threads
      modifies this
      ensures Inv(state) && LocksOwned(state)
      ensures ok <==> Registrable(old(state), r, row)
      ensures state == if ok then old(state).(sources := old(state).sources[r.source := row]) else old(state)
      ensures ok ==> forall x :: Claims(state, x, r.anchor) <==> x == r.source
    {
      FreeIs(state, r.anchor);
      SharedEndsIf(state, tid, r.anchor, GuardLocked(r));
      hide Inv, NoRowClaims, Unknown, Claims, RegistrationAnchor, Ended, CheckHolds, HoldsLocks, AnchorIsFree,
           LocksOwned;
      ok := false;
      if !CanShare(state, tid, r.anchor) {
        return;
      }
      ghost var start := state;
      SharedKeeps(state, tid, r.anchor, GuardLocked(r));
      state := Shared(state, tid, r.anchor, GuardLocked(r));
      SameAnswers(start, state, r);
      if r.anchor !in state.reservations || state.reservations[r.anchor] != Reserved(r)
         || state.archivePending || !NoRowClaims(state, r.anchor) || Unknown(state) {
        state := Ended(state, tid);
        return;
      }
      ReadyToRegister(state, tid, r);
      EndedForgets(state, tid, GuardReady(r, true));
      state := state.(threads := state.threads[tid := GuardReady(r, true)]);
      EndedSources(state, tid, start.sources[r.source := row]);
      if r.source !in state.sources && RegistrationAnchor(row.settings) == Some(r.anchor) {
        RegisterKeeps(state, tid, r, true, row);
        state := state.(sources := state.sources[r.source := row]);
        ok := true;
      }
      EndedKeeps(state, tid);
      state := Ended(state, tid);
      StillOwned(start, state);
      OnlyClaimant(state, r);
    }

    /** `confirm` under the exclusive lock, uninterrupted: the row is quarantined with its decision. */
    method Confirm(tid: Tid, x: Source, choice: Choice) returns (ok: bool)
      requires Inv(state) && LocksOwned(state) && tid !in state.threads
      modifies this
      ensures Inv(state) && LocksOwned(state)
      ensures ok <==> Confirmable(old(state), x, choice)
      ensures !ok ==> state == old(state)
      ensures ok ==> x in state.sources && state == old(state).(sources := old(state).sources[x := state.sources[x]])
      ensures ok ==>
                && !state.sources[x].enabled && !state.sources[x].syncEnabled
                && state.sources[x].settings.mapping == old(state).sources[x].settings.mapping
                && state.sources[x].settings.proof == old(state).sources[x].settings.proof
                && RegistrationAnchor(state.sources[x].settings)
                   == if choice.Observe? then Some(choice.anchor) else None
    {
      ok := false;
      if state.exclusive.Some? || state.shared != {} {
        return;
      }
      ghost var start := state;
      MayConfirmIs(state, x, choice);
      DecidedIs(state, x, choice);
      hide Inv, MayConfirm, Claims, RegistrationAnchor, DecidedRow, Ended, CheckHolds, HoldsLocks, LocksOwned;
      ConfirmLockKeeps(state, tid, x, choice);
      ExclusiveEnds(state, tid, ConfirmLocked(x, choice));
      state := state.(exclusive := Some(tid), threads := state.threads[tid := ConfirmLocked(x, choice)]);
      SameConfirm(start, state, x, choice);
      if !MayConfirm(state, x, choice) {
        state := Ended(state, tid);
        return;
      }
      ReadyToConfirm(state, tid, x, choice);
      EndedForgets(state, tid, ConfirmReady(x, choice));
      state := state.(threads := state.threads[tid := ConfirmReady(x, choice)]);
      ObserveKeeps(state, tid, x, choice);
      EndedSources(state, tid, start.sources[x := DecidedRow(start.sources[x], choice)]);
      state := state.(sources := state.sources[x := DecidedRow(state.sources[x], choice)]);
      state := Ended(state, tid);
      StillOwned(start, state);
      ok := true;
    }
  }

  lemma SharedEndsIf(s: State, tid: Tid, a: Anchor, t: Thread)
    requires LocksOwned(s)
    ensures CanShare(s, tid, a) ==> Ended(Shared(s, tid, a, t), tid) == s
  {
    if CanShare(s, tid, a) {
      SharedEnds(s, tid, a, t);
    }
  }

  lemma StillOwned(s: State, t: State)
    requires LocksOwned(s) && t.threads == s.threads
    requires t.shared == s.shared && t.anchorLocks == s.anchorLocks && t.exclusive == s.exclusive
    ensures LocksOwned(t)
  {
  }

  lemma ReadyToReserve(s: State, tid: Tid, r: Request)
    requires Inv(s) && tid in s.threads && s.threads[tid] == ReserveLocked(r) && MayReserve(s, r)
    ensures Inv(s.(threads := s.threads[tid := ReserveReady(r)]))
  {
    hide Inv;
    ReserveReadyHolds(s, r);
    LocksOfThread(s, tid);
    MovedKeeps(s, tid, ReserveReady(r));
  }

  lemma ReadyToRegister(s: State, tid: Tid, r: Request)
    requires Inv(s) && tid in s.threads && s.threads[tid] == GuardLocked(r) && MayRegister(s, r)
    ensures Inv(s.(threads := s.threads[tid := GuardReady(r, true)]))
  {
    hide Inv;
    LocksOfThread(s, tid);
    MovedKeeps(s, tid, GuardReady(r, true));
  }

  lemma ReadyToConfirm(s: State, tid: Tid, x: Source, choice: Choice)
    requires Inv(s) && tid in s.threads && s.threads[tid] == ConfirmLocked(x, choice) && MayConfirm(s, x, choice)
    ensures Inv(s.(threads := s.threads[tid := ConfirmReady(x, choice)]))
  {
    hide Inv, MayConfirm;
    LocksOfThread(s, tid);
    MovedKeeps(s, tid, ConfirmReady(x, choice));
  }

  lemma MayConfirmIs(s: State, x: Source, choice: Choice)
    ensures MayConfirm(s, x, choice) <==>
            && x in s.sources && RegistrationAnchor(s.sources[x].settings).None?
            && (choice.Observe? ==> forall y :: y != x ==> !Claims(s, y, choice.anchor))
  {
    hide RegistrationAnchor;
    if choice.Observe? && forall y :: y != x ==> !Claims(s, y, choice.anchor) {
      assert choice.anchor in s.reservations ==>
          Claims(s, s.reservations[choice.anchor].source, choice.anchor);
      assert forall y :: y in s.sources && y != x && RowClaims(s, y, choice.anchor) ==> Claims(s, y, choice.anchor);
    }
  }

  lemma DecidedIs(s: State, x: Source, choice: Choice)
    ensures MayConfirm(s, x, choice) ==>
              var row := DecidedRow(s.sources[x], choice);
              && !row.enabled && !row.syncEnabled
              && row.settings.mapping == s.sources[x].settings.mapping
              && row.settings.proof == s.sources[x].settings.proof
              && RegistrationAnchor(row.settings) == if choice.Observe? then Some(choice.anchor) else None
  {
  }

  lemma SameConfirm(s: State, t: State, x: Source, choice: Choice)
    requires SameTables(s, t)
    ensures MayConfirm(s, x, choice) <==> MayConfirm(t, x, choice)
    ensures MayConfirm(s, x, choice) ==> x in s.sources
  {
    SameRowClaims(s, t);
  }

  /**
   No archival is pending, no live row claims the anchor, and no live enabled row is of unknown identity, that
   is, without a host UUID that its proof or its only recorded host names.
   */
  predicate AnchorIsFree(s: State, a: Anchor) {
    && !s.archivePending
    && forall x :: x in s.sources && x !in s.archived ==>
         && RegistrationAnchor(s.sources[x].settings) != Some(a)
         && (s.sources[x].enabled ==> LegacyAnchor(s.sources[x].settings).Some?)
  }

  lemma FreeIs(s: State, a: Anchor)
    ensures AnchorIsFree(s, a) <==> !s.archivePending && NoRowClaims(s, a) && !Unknown(s)
  {
    hide RegistrationAnchor, LegacyAnchor;
    if !AnchorIsFree(s, a) && !s.archivePending {
      var x :| x in s.sources && x !in s.archived
               && !(&& RegistrationAnchor(s.sources[x].settings) != Some(a)
                    && (s.sources[x].enabled ==> LegacyAnchor(s.sources[x].settings).Some?));
      assert RowClaims(s, x, a) || (s.sources[x].enabled && !Resolved(s.sources[x]));
    }
  }

  /** Which anchor the settings of a row claim, and on what evidence. */
  lemma AnchorIs(s: Settings, a: Anchor)
    ensures LegacyAnchor(s) == Some(a) <==>
            || (s.proof == Proof(a) && !s.mapping.BadHosts?
                && (s.mapping.Hosts? ==>
                      forall h :: h in s.mapping.hosts ==> h.Object? && (h.id == NotUuid || h.id == Uuid(a))))
            || (s.proof.NoProof? && s.mapping == Hosts([Object(Uuid(a))]))
    ensures RegistrationAnchor(s) == Some(a) <==>
            LegacyAnchor(s) == Some(a) || (LegacyAnchor(s).None? && s.decision == Observed(Uuid(a)))
  {
    if s.proof.NoProof? && SoleHost(s.mapping) == Some(a) {
      assert s.mapping.hosts == [Object(Uuid(a))];
    }
  }

  lemma SameAnswers(s: State, t: State, r: Request)
    requires SameTables(s, t) && t.archivePending == s.archivePending
    ensures NoRowClaims(s, r.anchor) <==> NoRowClaims(t, r.anchor)
    ensures Unknown(s) <==> Unknown(t)
  {
  }

  lemma OnlyClaimant(s: State, r: Request)
    requires Inv(s) && r.anchor in s.reservations && s.reservations[r.anchor] == Reserved(r)
    ensures forall x :: Claims(s, x, r.anchor) <==> x == r.source
  {
    assert Claims(s, r.source, r.anchor);
  }
}
