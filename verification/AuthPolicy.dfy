/** Policy updates, their replay memory, and probe receipts of the auth service. */
module AuthPolicy {
  import opened Wrappers

  const MEMORY := 4096
  const RECEIPTS := 128
  const RECEIPT_LIFETIME := 600
  const HOSTS := 256

  datatype Canonical = Canonical(host: string, expected: int, allow: bool)

  /** One remembered policy change. */
  datatype Change = Change(actor: string, request: Canonical, revision: nat)

  datatype Receipt = Receipt(actor: string, revision: nat, destination: string, provider: string, expires: int,
      consumed: bool)

  /** `applied`, `issued` and `consumed` record history for the statements below; no operation reads them. */
  datatype State = State(
    revision: nat, managed: bool, publicCeiling: bool, hosts: set<string>,
    changes: map<string, Change>, receipts: map<string, Receipt>,
    applied: seq<(string, Change)>, issued: multiset<string>, consumed: multiset<string>)

  const INITIAL := State(0, false, false, {}, map[], map[], [], multiset{}, multiset{})

  // ------------------------------------------------------------------ updates

  /**
   `host` is the validated host; `authorized` covers session, permission and recent authentication; `fits`
   the size bounds.
   */
  datatype Update = Update(key: string, actor: string, host: Option<string>, expected: int, allow: bool,
      authorized: bool, fits: bool)

  datatype Reply = Denied | AtRevision(revision: nat)

  function Request(u: Update): Canonical
    requires u.host.Some?
  {
    Canonical(u.host.value, u.expected, u.allow)
  }

  function HostsAfter(s: State, u: Update): set<string>
    requires u.host.Some?
  {
    if u.allow then s.hosts + {u.host.value} else s.hosts - {u.host.value}
  }

  /** The remembered change with the least revision. */
  predicate Oldest(changes: map<string, Change>, k: string) {
    k in changes && forall x :: x in changes ==> changes[k].revision <= changes[x].revision
  }

  lemma {:induction false} OldestExists(changes: map<string, Change>)
    requires |changes| > 0
    ensures exists k :: Oldest(changes, k)
    decreases |changes|
  {
    var k :| k in changes;
    var rest := changes - {k};
    if rest == map[] {
      assert changes.Keys - {k} == rest.Keys == {};
      assert forall x :: x in changes ==> x in changes.Keys && x !in changes.Keys - {k};
      assert Oldest(changes, k);
    } else {
      assert changes.Keys == rest.Keys + {k};
      OldestExists(rest);
      var o :| Oldest(rest, o);
      assert forall x :: x in changes <==> x == k || x in rest;
      if changes[k].revision <= rest[o].revision {
        assert Oldest(changes, k);
      } else {
        assert Oldest(changes, o);
      }
    }
  }

  /** Full memory forgets its oldest change before the new one is recorded. */
  ghost function Evict(changes: map<string, Change>): map<string, Change> {
    if |changes| < MEMORY then changes
    else
      OldestExists(changes);
      var k :| Oldest(changes, k);
      changes - {k}
  }

  /** `_update_policy` after the replay check. */
  ghost function ApplyUpdate(s: State, u: Update): State
    requires u.host.Some?
  {
    var change := Change(u.actor, Request(u), s.revision + 1);
    s.(hosts := HostsAfter(s, u), revision := s.revision + 1, receipts := map[],
       changes := Evict(s.changes)[u.key := change], applied := s.applied + [(u.key, change)])
  }

  predicate Applies(s: State, u: Update) {
    && u.authorized && s.managed && s.publicCeiling && u.host.Some?
    && u.key !in s.changes && u.expected == s.revision
    && |HostsAfter(s, u)| <= HOSTS && u.fits
  }

  function UpdateReply(s: State, u: Update): Reply {
    if !(u.authorized && s.managed && s.publicCeiling && u.host.Some?) then Denied
    else if u.key in s.changes then
      if s.changes[u.key].actor == u.actor && s.changes[u.key].request == Request(u)
        then AtRevision(s.changes[u.key].revision) else Denied
    else if Applies(s, u) then AtRevision(s.revision + 1)
    else Denied
  }

  ghost function UpdatePolicy(s: State, u: Update): State {
    if Applies(s, u) then ApplyUpdate(s, u) else s
  }

  // ----------------------------------------------------------------- receipts

  function Live(receipts: map<string, Receipt>, now: int): map<string, Receipt> {
    map k | k in receipts && receipts[k].expires > now :: receipts[k]
  }

  datatype Probe = Probe(key: string, actor: string, revision: int, destination: string, provider: string, now: int,
      authorized: bool)

  function IssueReceipt(s: State, p: Probe): State {
    var live := Live(s.receipts, p.now);
    if !p.authorized || p.revision != s.revision || |live| >= RECEIPTS then s
    else s.(receipts := live[p.key :=
      Receipt(p.actor, s.revision, p.destination, p.provider, p.now + RECEIPT_LIFETIME, false)],
            issued := s.issued + multiset{p.key})
  }

  predicate Usable(s: State, p: Probe) {
    && p.authorized && p.key in s.receipts
    && var r := s.receipts[p.key]; r.actor == p.actor && r.expires > p.now && r.revision == s.revision && !r.consumed
  }

  predicate Consumes(s: State, p: Probe) {
    Usable(s, p) && s.receipts[p.key].destination == p.destination && s.receipts[p.key].provider == p.provider
  }

  function ConsumeReceipt(s: State, p: Probe): State {
    if !Consumes(s, p) then s
    else s.(receipts := s.receipts[p.key := s.receipts[p.key].(consumed := true)],
      consumed := s.consumed + multiset{p.key})
  }

  function CancelReceipt(s: State, p: Probe): State {
    if !p.authorized || p.key !in s.receipts || s.receipts[p.key].actor != p.actor then s
    else s.(receipts := s.receipts[p.key := s.receipts[p.key].(consumed := true)])
  }

  // --------------------------------------------------------------------- runs

  /** `drop` stands for the root actions that only clear receipts (revoke, recover). */
  datatype Event =
    | UpdateEvent(update: Update)
    | IssueEvent(probe: Probe)
    | ConsumeEvent(probe: Probe)
    | CheckEvent(probe: Probe)
    | CancelEvent(probe: Probe)
    | ManagedEvent(publicCeiling: bool)
    | DropEvent

  ghost function Step(s: State, e: Event): State {
    match e
    case UpdateEvent(u) => UpdatePolicy(s, u)
    case IssueEvent(p) => IssueReceipt(s, p)
    case ConsumeEvent(p) => ConsumeReceipt(s, p)
    case CheckEvent(_) => s
    case CancelEvent(p) => CancelReceipt(s, p)
    case ManagedEvent(publicCeiling) =>
      s.(managed := true, publicCeiling := publicCeiling, revision := s.revision + 1, receipts := map[])
    case DropEvent => s.(receipts := map[])
  }

  ghost function Run(events: seq<Event>): State {
    if events == [] then INITIAL else Step(Run(events[..|events| - 1]), events[|events| - 1])
  }

  // --------------------------------------------------------------- invariants

  predicate ReceiptsCurrent(s: State) {
    forall k :: k in s.receipts ==> s.receipts[k].revision == s.revision
  }

  /** Every successful consume is paid for by an issue, and so is a receipt that can still be consumed. */
  ghost predicate ConsumesPaid(s: State) {
    forall k :: s.consumed[k] + (if k in s.receipts && !s.receipts[k].consumed then 1 else 0) <= s.issued[k]
  }

  /** Applied updates have strictly increasing revisions. */
  predicate Rising(log: seq<(string, Change)>) {
    forall i, j :: 0 <= i < j < |log| ==> log[i].1.revision < log[j].1.revision
  }

  predicate AppliedInOrder(s: State) {
    && Rising(s.applied)
    && forall i :: 0 <= i < |s.applied| ==>
         s.applied[i].1.revision == s.applied[i].1.request.expected + 1 && s.applied[i].1.revision <= s.revision
  }

  function WindowStart(n: nat): nat {
    if n <= MEMORY then 0 else n - MEMORY
  }

  /** Every update of the window is remembered under its own key. */
  predicate WindowRemembered(log: seq<(string, Change)>, start: nat, changes: map<string, Change>) {
    forall i :: start <= i < |log| ==> log[i].0 in changes && changes[log[i].0] == log[i].1
  }

  /** Nothing else is remembered. */
  predicate OnlyWindow(log: seq<(string, Change)>, start: nat, changes: map<string, Change>) {
    forall k :: k in changes ==> exists i :: start <= i < |log| && log[i].0 == k
  }

  /** The memory is exactly the most recent applied updates, each under its own key. */
  predicate Window(log: seq<(string, Change)>, changes: map<string, Change>) {
    && WindowRemembered(log, WindowStart(|log|), changes)
    && OnlyWindow(log, WindowStart(|log|), changes)
    && |changes| == |log| - WindowStart(|log|)
  }

  ghost predicate MemoryIsWindow(s: State) {
    Window(s.applied, s.changes)
  }

  ghost predicate Inv(s: State) {
    ReceiptsCurrent(s) && ConsumesPaid(s) && AppliedInOrder(s) && MemoryIsWindow(s)
  }

  /** The least remembered revision belongs to the first change of the window. */
  lemma OldestIsFirst(log: seq<(string, Change)>, changes: map<string, Change>, k: string)
    requires Rising(log) && Window(log, changes) && Oldest(changes, k)
    ensures WindowStart(|log|) < |log| && k == log[WindowStart(|log|)].0
  {
  }

  /** Eviction forgets exactly the first change of the window. */
  lemma EvictedIsFirst(log: seq<(string, Change)>, changes: map<string, Change>)
    requires Rising(log) && Window(log, changes) && |changes| >= MEMORY
    ensures WindowStart(|log|) < |log|
    ensures Evict(changes) == changes - {log[WindowStart(|log|)].0}
  {
  }

  lemma Inserted(m: map<string, Change>, k: string, c: Change)
    requires k !in m
    ensures |m[k := c]| == |m| + 1
  {
  }

  lemma Removed(m: map<string, Change>, k: string)
    requires k in m
    ensures |m - {k}| == |m| - 1
  {
  }

  lemma OnlyWindowNext(log: seq<(string, Change)>, start: nat, changes: map<string, Change>, k: string, c: Change)
    requires OnlyWindow(log, start, changes) && start <= |log|
    ensures OnlyWindow(log + [(k, c)], start, changes[k := c])
  {
    var longer, more := log + [(k, c)], changes[k := c];
    forall x | x in more
      ensures exists i :: start <= i < |longer| && longer[i].0 == x
    {
      if x == k {
        assert longer[|log|].0 == x;
      } else {
        var i :| start <= i < |log| && log[i].0 == x;
        assert longer[i].0 == x;
      }
    }
  }

  lemma RememberedNext(log: seq<(string, Change)>, start: nat, changes: map<string, Change>, k: string, c: Change)
    requires WindowRemembered(log, start, changes) && start <= |log| && k !in changes
    ensures WindowRemembered(log + [(k, c)], start, changes[k := c])
  {
  }

  /** The rest of a window once its first change is forgotten. */
  lemma WindowTail(log: seq<(string, Change)>, start: nat, changes: map<string, Change>)
    requires Rising(log) && start < |log| && WindowRemembered(log, start, changes) && OnlyWindow(log, start, changes)
    ensures log[start].0 in changes
    ensures WindowRemembered(log, start + 1, changes - {log[start].0})
            && OnlyWindow(log, start + 1, changes - {log[start].0})
  {
  }

  lemma WindowGrows(log: seq<(string, Change)>, changes: map<string, Change>, k: string, c: Change)
    requires Window(log, changes) && k !in changes && |changes| < MEMORY
    ensures Window(log + [(k, c)], changes[k := c])
  {
    hide OnlyWindow, WindowRemembered;
    OnlyWindowNext(log, WindowStart(|log|), changes, k, c);
    RememberedNext(log, WindowStart(|log|), changes, k, c);
    Inserted(changes, k, c);
  }

  lemma WindowSlides(log: seq<(string, Change)>, changes: map<string, Change>, k: string, c: Change)
    requires Rising(log) && Window(log, changes) && k !in changes && |changes| >= MEMORY && WindowStart(|log|) < |log|
    ensures Window(log + [(k, c)], (changes - {log[WindowStart(|log|)].0})[k := c])
  {
    hide OnlyWindow, WindowRemembered, Rising;
    var start := WindowStart(|log|);
    var kept := changes - {log[start].0};
    WindowTail(log, start, changes);
    OnlyWindowNext(log, start + 1, kept, k, c);
    RememberedNext(log, start + 1, kept, k, c);
    Removed(changes, log[start].0);
    Inserted(kept, k, c);
  }

  /** One more applied update, with eviction when the memory is full. */
  lemma WindowNext(log: seq<(string, Change)>, changes: map<string, Change>, k: string, c: Change)
    requires Rising(log) && Window(log, changes) && k !in changes
    ensures Window(log + [(k, c)], Evict(changes)[k := c])
  {
    hide Window, Rising, Oldest;
    if |changes| < MEMORY {
      WindowGrows(log, changes, k, c);
    } else {
      EvictedIsFirst(log, changes);
      WindowSlides(log, changes, k, c);
    }
  }

  lemma ApplyKeeps(s: State, u: Update)
    requires Inv(s) && Applies(s, u)
    ensures Inv(ApplyUpdate(s, u))
  {
    hide Window, Evict;
    WindowNext(s.applied, s.changes, u.key, Change(u.actor, Request(u), s.revision + 1));
  }

  lemma ReceiptStepKeeps(s: State, e: Event)
    requires Inv(s) && !e.UpdateEvent?
    ensures Inv(Step(s, e))
  {
    hide Window, Rising;
  }

  lemma StepKeeps(s: State, e: Event)
    requires Inv(s)
    ensures Inv(Step(s, e))
  {
    hide Inv, Applies, ApplyUpdate;
    if e.UpdateEvent? {
      if Applies(s, e.update) {
        ApplyKeeps(s, e.update);
      }
    } else {
      ReceiptStepKeeps(s, e);
    }
  }

  /**
   Over every run of the service: stored receipts carry the current revision, consumes never exceed
   issues, and the replay memory is exactly the last 4096 applied updates.
   */
  lemma {:induction false} RunKeeps(events: seq<Event>)
    ensures Inv(Run(events))
  {
    hide Step;
    if events != [] {
      RunKeeps(events[..|events| - 1]);
      StepKeeps(Run(events[..|events| - 1]), events[|events| - 1]);
    }
  }

  /** At most one update is applied per expected revision, however many were forgotten. */
  lemma OneUpdatePerRevision(events: seq<Event>, i: nat, j: nat)
    requires i < |Run(events).applied| && j < |Run(events).applied|
    requires Run(events).applied[i].1.request.expected == Run(events).applied[j].1.request.expected
    ensures i == j
  {
    hide Run;
    RunKeeps(events);
  }

  /** A refused or replayed update leaves policy, receipts and memory as they were, although it is committed. */
  lemma RefusedUpdateChangesNothing(s: State, u: Update)
    requires Inv(s)
    requires UpdateReply(s, u) == Denied || u.key in s.changes
    ensures UpdatePolicy(s, u) == s
  {
  }

  /** From `s`, any further events. */
  ghost function RunFrom(s: State, events: seq<Event>): State {
    if events == [] then s else Step(RunFrom(s, events[..|events| - 1]), events[|events| - 1])
  }

  lemma HistoryGrows(s: State, e: Event)
    ensures s.applied <= Step(s, e).applied && s.revision <= Step(s, e).revision
  {
  }

  lemma {:induction false} RunFromKeeps(s: State, events: seq<Event>)
    requires Inv(s)
    ensures Inv(RunFrom(s, events))
    ensures s.applied <= RunFrom(s, events).applied && s.revision <= RunFrom(s, events).revision
  {
    hide Step, Inv;
    if events != [] {
      var init, last := events[..|events| - 1], events[|events| - 1];
      RunFromKeeps(s, init);
      StepKeeps(RunFrom(s, init), last);
      HistoryGrows(RunFrom(s, init), last);
    }
  }

  /** The request of an update is accepted for consideration at all. */
  predicate Considered(s: State, u: Update) {
    u.authorized && s.managed && s.publicCeiling && u.host.Some?
  }

  /** The same request by the same actor under the same key; authorization and bounds may differ. */
  predicate Repeats(u: Update, v: Update) {
    u.key == v.key && u.actor == v.actor && u.host == v.host && u.expected == v.expected && u.allow == v.allow
  }

  /** A remembered update answers its repetition. */
  lemma RememberedAnswers(t: State, n: nat, v: Update)
    requires Inv(t) && WindowStart(|t.applied|) <= n < |t.applied| && Considered(t, v)
    requires t.applied[n].0 == v.key && t.applied[n].1.actor == v.actor && t.applied[n].1.request == Request(v)
    ensures UpdateReply(t, v) == AtRevision(t.applied[n].1.revision)
  {
  }

  /** A forgotten update is denied: its key is free or in other use, and its expected revision is past. */
  lemma ForgottenIsDenied(t: State, n: nat, v: Update)
    requires Inv(t) && n < WindowStart(|t.applied|) && Considered(t, v)
    requires t.applied[n].0 == v.key && t.applied[n].1.request == Request(v)
    ensures UpdateReply(t, v) == Denied
  {
    assert t.applied[n].1.revision <= t.revision;
    if v.key in t.changes {
      var i :| WindowStart(|t.applied|) <= i < |t.applied| && t.applied[i].0 == v.key;
      assert t.applied[n].1.revision < t.applied[i].1.revision;
      assert t.changes[v.key] == t.applied[i].1;
    }
  }

  /**
   Exactly-once updates. Once applied, a request repeated after any further run changes nothing. It is
   answered with its own revision if and only if it is accepted for consideration and at most 4095 updates
   were applied since, and denied otherwise.
   */
  lemma ReplayIsIdempotent(s: State, u: Update, events: seq<Event>, v: Update)
    requires Inv(s) && Applies(s, u) && Repeats(u, v)
    ensures var t := RunFrom(UpdatePolicy(s, u), events);
            && UpdatePolicy(t, v) == t
            && |s.applied| < |t.applied|
            && UpdateReply(t, v) == (if Considered(t, v) && |t.applied| - |s.applied| <= MEMORY
                                     then AtRevision(s.revision + 1) else Denied)
  {
    hide Inv, RunFrom, Evict;
    var t := RunFrom(UpdatePolicy(s, u), events);
    ApplyKeeps(s, u);
    RunFromKeeps(UpdatePolicy(s, u), events);
    var n := |s.applied|;
    assert UpdatePolicy(s, u).applied[n] == (u.key, Change(u.actor, Request(u), s.revision + 1));
    assert t.applied[n] == UpdatePolicy(s, u).applied[n];
    if Considered(t, v) {
      if n < WindowStart(|t.applied|) {
        ForgottenIsDenied(t, n, v);
      } else {
        RememberedAnswers(t, n, v);
      }
    }
  }

  /** Successful consumes of a receipt never exceed its issues. */
  lemma ConsumesNeverExceedIssues(events: seq<Event>, key: string)
    ensures Run(events).consumed[key] <= Run(events).issued[key]
  {
    hide Run;
    RunKeeps(events);
  }

  // -------------------------------------------------------------- as it runs

  /** `min` over the remembered changes by revision. */
  method FindOldest(changes: map<string, Change>) returns (k: string)
    requires |changes| > 0
    ensures Oldest(changes, k)
  {
    OldestExists(changes);
    var rest := changes.Keys;
    k :| k in rest;
    rest := rest - {k};
    while rest != {}
      invariant k in changes && rest <= changes.Keys
      invariant forall x :: x in changes && x !in rest ==> changes[k].revision <= changes[x].revision
      decreases |rest|
    {
      var x :| x in rest;
      if changes[x].revision < changes[k].revision {
        k := x;
      }
      rest := rest - {x};
    }
  }

  /** The service on the locked state row; what a method leaves is committed even when it refuses. */
  class AuthService {
    var state: State

    constructor ()
      ensures state == INITIAL && Inv(state)
    {
      state := INITIAL;
      assert Inv(INITIAL) by { RunKeeps([]); }
    }

    /** `_update_policy`. */
    method ChangePolicy(u: Update) returns (reply: Reply)
      requires Inv(state)
      modifies this
      ensures state == UpdatePolicy(old(state), u) && reply == UpdateReply(old(state), u)
      ensures Inv(state)
      ensures reply == Denied || u.key in old(state).changes ==> state == old(state)
      ensures reply == (if !Considered(old(state), u) then Denied
                        else if u.key in old(state).changes then
                          var was := old(state).changes[u.key];
                          if was.actor == u.actor && was.request == Canonical(u.host.value, u.expected, u.allow)
                          then AtRevision(was.revision) else Denied
                        else if u.expected == old(state).revision && u.fits
                                && |if u.allow then old(state).hosts + {u.host.value}
                                    else old(state).hosts - {u.host.value}| <= 256
                        then AtRevision(old(state).revision + 1) else Denied)
      ensures reply.AtRevision? && u.key !in old(state).changes ==>
                && state.revision == reply.revision && state.receipts == map[]
                && (u.host.value in state.hosts <==> u.allow)
                && (forall h :: h != u.host.value ==> (h in state.hosts <==> h in old(state).hosts))
                && u.key in state.changes
                && state.changes[u.key] == Change(u.actor, Canonical(u.host.value, u.expected, u.allow), reply.revision)
                && state.managed == old(state).managed && state.publicCeiling == old(state).publicCeiling
    {
      hide Inv, Evict, Oldest, Window, Rising;
      StepKeeps(state, UpdateEvent(u));
      reply := Denied;
      if !u.authorized || !state.managed || !state.publicCeiling || u.host.None? {
        return;
      }
      if u.key in state.changes {
        var previous := state.changes[u.key];
        if previous.actor == u.actor && previous.request == Request(u) {
          reply := AtRevision(previous.revision);
        }
        return;
      }
      if u.expected != state.revision {
        return;
      }
      var hosts := HostsAfter(state, u);
      if |hosts| > HOSTS || !u.fits {
        return;
      }
      var changes := Remember(u);
      var change := Change(u.actor, Request(u), state.revision + 1);
      state := state.(hosts := hosts, revision := state.revision + 1, receipts := map[],
        changes := changes, applied := state.applied + [(u.key, change)]);
      reply := AtRevision(state.revision);
    }

    /** Evict the oldest change at capacity, then record the new one. */
    method Remember(u: Update) returns (changes: map<string, Change>)
      requires Inv(state) && u.host.Some?
      ensures changes == Evict(state.changes)[u.key := Change(u.actor, Request(u), state.revision + 1)]
    {
      changes := state.changes;
      if |changes| >= MEMORY {
        var oldest := FindOldest(changes);
        EvictedIsFirst(state.applied, changes);
        OldestIsFirst(state.applied, changes, oldest);
        changes := changes - {oldest};
      }
      changes := changes[u.key := Change(u.actor, Request(u), state.revision + 1)];
    }

    /** `_issue_receipt`. */
    method Issue(p: Probe) returns (ok: bool)
      requires Inv(state)
      modifies this
      ensures state == IssueReceipt(old(state), p) && Inv(state)
      ensures !ok ==> state == old(state)
      ensures ok <==>
              && p.authorized && p.revision == old(state).revision
              && |set k | k in old(state).receipts && p.now < old(state).receipts[k].expires| < 128
      ensures ok ==>
                && p.key in state.receipts
                && state.receipts[p.key]
                   == Receipt(p.actor, old(state).revision, p.destination, p.provider, p.now + 600, false)
                && forall k :: k != p.key ==>
                     && (k in state.receipts <==>
                         k in old(state).receipts && p.now < old(state).receipts[k].expires)
                     && (k in state.receipts ==> state.receipts[k] == old(state).receipts[k])
    {
      hide Inv;
      StepKeeps(state, IssueEvent(p));
      assert Live(state.receipts, p.now).Keys
             == set k | k in state.receipts && p.now < state.receipts[k].expires;
      ok := false;
      if !p.authorized || p.revision != state.revision {
        return;
      }
      var live := Live(state.receipts, p.now);
      if |live| >= RECEIPTS {
        return;
      }
      live := live[p.key := Receipt(p.actor, state.revision, p.destination, p.provider, p.now + RECEIPT_LIFETIME,
        false)];
      state := state.(receipts := live, issued := state.issued + multiset{p.key});
      ok := true;
    }

    /** `_use_receipt` for a consume. */
    method Consume(p: Probe) returns (ok: bool)
      requires Inv(state)
      modifies this
      ensures ok <==>
              && p.authorized && p.key in old(state).receipts
              && var r := old(state).receipts[p.key];
                 && !r.consumed && r.actor == p.actor && p.now < r.expires && r.revision == old(state).revision
                 && r.destination == p.destination && r.provider == p.provider
      ensures state == ConsumeReceipt(old(state), p) && Inv(state)
      ensures ok ==> p.key in state.receipts && state.receipts[p.key].consumed && !Consumes(state, p)
      ensures forall k :: k != p.key ==>
                && (k in state.receipts <==> k in old(state).receipts)
                && (k in state.receipts ==> state.receipts[k] == old(state).receipts[k])
    {
      hide Inv;
      StepKeeps(state, ConsumeEvent(p));
      ok := false;
      if !p.authorized || p.key !in state.receipts {
        return;
      }
      var r := state.receipts[p.key];
      if r.actor != p.actor || r.expires <= p.now || r.revision != state.revision {
        return;
      }
      if r.destination != p.destination || r.provider != p.provider || r.consumed {
        return;
      }
      state := state.(receipts := state.receipts[p.key := r.(consumed := true)],
        consumed := state.consumed + multiset{p.key});
      ok := true;
    }

    /** The root action `managed`: a new revision under the given ceiling, to which no earlier receipt belongs. */
    method SetManaged(publicCeiling: bool)
      requires Inv(state)
      modifies this
      ensures Inv(state) && state == Step(old(state), ManagedEvent(publicCeiling))
      ensures state.managed && state.publicCeiling == publicCeiling && state.revision == old(state).revision + 1
      ensures state.hosts == old(state).hosts && state.changes == old(state).changes
      ensures forall p :: !Consumes(state, p)
    {
      hide Inv;
      StepKeeps(state, ManagedEvent(publicCeiling));
      state := state.(managed := true, publicCeiling := publicCeiling, revision := state.revision + 1,
        receipts := map[]);
    }

    /** A receipt is withdrawn by its own actor only. */
    method Cancel(p: Probe) returns (ok: bool)
      requires Inv(state)
      modifies this
      ensures state == CancelReceipt(old(state), p) && Inv(state)
      ensures ok <==>
              p.authorized && (p.key in old(state).receipts ==> old(state).receipts[p.key].actor == p.actor)
      ensures !ok || p.key !in old(state).receipts ==> state == old(state)
      ensures ok ==>
                && state.receipts.Keys == old(state).receipts.Keys
                && (p.key in state.receipts ==> state.receipts[p.key].consumed)
                && (forall k :: k in state.receipts && k != p.key ==> state.receipts[k] == old(state).receipts[k])
                && state.consumed == old(state).consumed
    {
      hide Inv;
      StepKeeps(state, CancelEvent(p));
      ok := p.authorized && (p.key in state.receipts ==> state.receipts[p.key].actor == p.actor);
      if ok && p.key in state.receipts {
        state := state.(receipts := state.receipts[p.key := state.receipts[p.key].(consumed := true)]);
      }
    }
  }
}
