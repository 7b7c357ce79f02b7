/**
 The prerequisite journal: a durable marker precedes every POST, and a POST whose outcome is unknown
 blocks every later attempt until an inventory read shows its field.
 */
module BootstrapPreparation {
  import opened Wrappers
  import opened BootstrapDocument

  /** Where one attempt stands between two locked sections. */
  datatype Phase =
    | Reading
    | Looping(todo: seq<string>)              // missing fields still to create
    | Marked(todo: seq<string>)               // marker saved for the first, POST not yet sent
    | InFlight(todo: seq<string>, post: nat)  // POST sent, no answer yet
    | Settling(todo: seq<string>)             // known outcome, marker to be cleared
    | Clearing(status: PrepStatus)            // nothing sent or refused, marker to be cleared
    | Ending                                  // unknown outcome, marker kept
    | Over

  /** `known` records what the fields showed before the attempt started. */
  datatype Attempt = Attempt(phase: Phase, digest: PlanDigest, known: set<string>)

  datatype Post = Post(run: nat, name: string, resolved: bool)

  /** `remote` are the fields that exist; `seen` those some inventory read showed. */
  datatype System = System(
    doc: Doc, plans: map<nat, (int, seq<Field>)>, nextPlan: nat, runs: map<nat, Attempt>, nextRun: nat,
    remote: set<string>, seen: set<string>, posts: seq<Post>, marks: set<(nat, string)>)

  function Initial(remote: set<string>): System {
    System(FRESH, map[], 0, map[], 0, remote, {}, [], {})
  }

  datatype Answer = WasCreated | WasReconciled | WasRejected | WasNotSent(status: PrepStatus) | Unknown

  /** One atomic step; a crash is a step that never comes. Validation steps may carry anything. */
  datatype Event =
    | ConfigureStep(payload: Payload)
    | BeginStep(revision: int, now: int, attempt: nat)
    | PublishStep(revision: int, attempt: nat, result: ProbeResult, now: int)
    | StatusStep(now: int)
    | FinishStep(revision: int, now: int)
    | PlanReadStep(revision: int, fields: seq<Field>)
    | PlanPublishStep(plan: nat, now: int)
    | CancelStep(revision: int)
    | StartStep(revision: int, digest: PlanDigest, confirmed: bool, now: int)
    | ReadStep(run: nat, fields: seq<Field>)
    | MarkStep(run: nat)
    | PostStep(run: nat)
    | AnswerStep(run: nat, answer: Answer)
    | SettleStep(run: nat)
    | StopStep(run: nat, status: PrepStatus)
    | LastReadStep(run: nat, fields: seq<Field>)
    | RemoteStep(name: string)

  /** An inventory read reports a field missing exactly when it does not exist. */
  predicate Honest(fields: seq<Field>, remote: set<string>) {
    forall f :: f in fields ==> (f.status == MissingField <==> f.name !in remote)
  }

  function Shown(fields: seq<Field>): set<string> {
    set f | f in fields && f.status != MissingField :: f.name
  }

  function MissingNames(fields: seq<Field>): seq<string> {
    if fields == [] then []
    else (if fields[0].status == MissingField then [fields[0].name] else []) + MissingNames(fields[1..])
  }

  function Marker(d: Doc): Option<string> {
    if d.prep.Some? then d.prep.value.uncertain else None
  }

  function Owner(d: Doc): Option<nat> {
    if d.prep.Some? then d.prep.value.runId else None
  }

  function PhaseOf(s: System, run: nat): Phase {
    if run in s.runs then s.runs[run].phase else Over
  }

  function At(s: System, run: nat, phase: Phase): System
    requires run in s.runs
  {
    s.(runs := s.runs[run := s.runs[run].(phase := phase)])
  }

  /** A save that moves the attempt on, or ends it when the journal belongs to another run. */
  function Saved(s: System, run: nat, u: Update, phase: Phase): System
    requires run in s.runs
  {
    var d := Save(s.doc, run, u);
    if d.Some? then At(s.(doc := d.value), run, phase) else At(s, run, Over)
  }

  function Started(s: System, e: Event): System
    requires e.StartStep?
  {
    var d := StartRun(s.doc, e.revision, e.digest, e.confirmed, e.now, s.nextRun);
    if d.None? then s
    else s.(doc := d.value, runs := s.runs[s.nextRun := Attempt(Reading, e.digest, s.seen)], nextRun := s.nextRun + 1)
  }

  function AfterMark(s: System, run: nat): System {
    var p := PhaseOf(s, run);
    if !p.Looping? || p.todo == [] then s
    else
      var t := Saved(s, run, Mark(p.todo[0]), Marked(p.todo));
      if Owner(s.doc) == Some(run) then t.(marks := t.marks + {(run, p.todo[0])}) else t
  }

  function AfterPost(s: System, run: nat): System {
    var p := PhaseOf(s, run);
    if !p.Marked? || p.todo == [] then s
    else At(s, run, InFlight(p.todo, |s.posts|)).(posts := s.posts + [Post(run, p.todo[0], false)])
  }

  function AfterAnswer(s: System, run: nat, answer: Answer): System {
    var p := PhaseOf(s, run);
    if !p.InFlight? || p.post >= |s.posts| || p.todo == [] then s
    else if answer == Unknown then At(s, run, Ending)
    else
      var t := s.(posts := s.posts[p.post := s.posts[p.post].(resolved := true)]);
      At(t, run,
         if answer.WasRejected? then Clearing(Rejected)
         else if answer.WasNotSent? then Clearing(answer.status)
         else Settling(p.todo[1..]))
  }

  function AfterSettle(s: System, run: nat): System {
    match PhaseOf(s, run)
    case Settling(todo) => Saved(s, run, Settle, Looping(todo))
    case Clearing(status) => Saved(s, run, StopClear(status), Over)
    case _ => s
  }

  function AfterRead(s: System, run: nat, fields: seq<Field>): System {
    if !PhaseOf(s, run).Reading? || !Honest(fields, s.remote) then s
    else
      var t := s.(seen := s.seen + Shown(fields));
      if fields == s.runs[run].digest.fields then At(t, run, Looping(MissingNames(fields)))
      else Saved(t, run, Stop(Stale), Over)
  }

  function AfterLastRead(s: System, run: nat, fields: seq<Field>): System {
    var p := PhaseOf(s, run);
    if !p.Looping? || p.todo != [] || !Honest(fields, s.remote) then s
    else
      Saved(s.(seen := s.seen + Shown(fields)), run,
            Complete(if forall f :: f in fields ==> f.status == ReadyField then Prepared else Waiting, fields), Over)
  }

  function Step(s: System, e: Event): System {
    match e
    case ConfigureStep(p) => s.(doc := Or(s.doc, Configure(s.doc, p)))
    case BeginStep(revision, now, attempt) => s.(doc := Or(s.doc, BeginValidation(s.doc, revision, now, attempt)))
    case PublishStep(revision, attempt, result, now) =>
      s.(doc := PublishValidation(s.doc, revision, attempt, result, now))
    case StatusStep(now) => s.(doc := Expire(s.doc, now))
    case FinishStep(revision, now) => s.(doc := Or(s.doc, Finish(s.doc, revision, now)))
    case PlanReadStep(revision, fields) =>
      if revision != s.doc.revision || Busy(s.doc) || s.doc.creds.read == "" || !Honest(fields, s.remote) then s
      else s.(plans := s.plans[s.nextPlan := (revision, fields)], nextPlan := s.nextPlan + 1,
        seen := s.seen + Shown(fields))
    case PlanPublishStep(plan, now) =>
      if plan !in s.plans then s else s.(doc := Or(s.doc, PublishPlan(s.doc, s.plans[plan].0, s.plans[plan].1, now)))
    case CancelStep(revision) => s.(doc := Or(s.doc, Cancel(s.doc, revision)))
    case StartStep(_, _, _, _) => Started(s, e)
    case ReadStep(run, fields) => AfterRead(s, run, fields)
    case MarkStep(run) => AfterMark(s, run)
    case PostStep(run) => AfterPost(s, run)
    case AnswerStep(run, answer) => AfterAnswer(s, run, answer)
    case SettleStep(run) => AfterSettle(s, run)
    case StopStep(run, status) => if run in s.runs then Saved(s, run, Stop(status), Over) else s
    case LastReadStep(run, fields) => AfterLastRead(s, run, fields)
    case RemoteStep(name) => s.(remote := s.remote + {name})
  }

  function Run(remote: set<string>, events: seq<Event>): System {
    if events == [] then Initial(remote) else Step(Run(remote, events[..|events| - 1]), events[|events| - 1])
  }

  // --------------------------------------------------------------- invariant

  /** The journal still names the field, or an inventory read has shown it. */
  predicate Covered(s: System, name: string) {
    name in s.seen || Marker(s.doc) == Some(name)
  }

  predicate PostsCovered(s: System) {
    forall i :: 0 <= i < |s.posts| && !s.posts[i].resolved ==> Covered(s, s.posts[i].name)
  }

  predicate MarksCovered(s: System) {
    forall r :: r in s.runs && s.runs[r].phase.Marked? && s.runs[r].phase.todo != [] ==>
      Covered(s, s.runs[r].phase.todo[0]) && (r, s.runs[r].phase.todo[0]) in s.marks
  }

  /** Between fields the owning attempt has no marker standing. */
  predicate OwnerClean(s: System) {
    forall r :: r in s.runs && Owner(s.doc) == Some(r) && (s.runs[r].phase.Reading? || s.runs[r].phase.Looping?) ==>
      Marker(s.doc) == None
  }

  /** Only the latest attempt owns the journal. */
  predicate LatestOwns(s: System) {
    && (forall r :: r in s.runs ==> r < s.nextRun && s.runs[r].known <= s.seen)
    && (Owner(s.doc).Some? ==> Owner(s.doc).value in s.runs && Owner(s.doc).value + 1 == s.nextRun)
  }

  predicate ReadsHold(s: System) {
    s.seen <= s.remote && forall p :: p in s.plans ==> Shown(s.plans[p].1) <= s.seen
  }

  /** An unresolved POST is its attempt's last: the attempt is waiting for it or finished. */
  predicate UnresolvedIsLast(s: System) {
    && (forall i :: 0 <= i < |s.posts| ==> s.posts[i].run in s.runs && (s.posts[i].run, s.posts[i].name) in s.marks)
    && (forall i :: 0 <= i < |s.posts| && !s.posts[i].resolved ==>
          var p := s.runs[s.posts[i].run].phase; p.Ending? || p.Over? || (p.InFlight? && p.post == i))
    && (forall r :: r in s.runs && s.runs[r].phase.InFlight? ==>
          s.runs[r].phase.post < |s.posts| && s.posts[s.runs[r].phase.post].run == r)
    && (forall i, j :: 0 <= i < j < |s.posts| && s.posts[i].run == s.posts[j].run ==> s.posts[i].resolved)
  }

  /** Whatever an earlier attempt may have created was visible before a later attempt started. */
  predicate LaterAttemptsKnow(s: System) {
    && (forall i, r :: 0 <= i < |s.posts| && !s.posts[i].resolved && r in s.runs && s.posts[i].run < r ==>
      s.posts[i].name in s.runs[r].known)
    && (forall q, r :: q in s.runs && r in s.runs && q < r && s.runs[q].phase.Marked? && s.runs[q].phase.todo != [] ==>
          s.runs[q].phase.todo[0] in s.runs[r].known)
  }

  predicate Inv(s: System) {
    && PostsCovered(s) && MarksCovered(s) && OwnerClean(s) && LatestOwns(s)
    && ReadsHold(s) && UnresolvedIsLast(s) && LaterAttemptsKnow(s)
  }

  /** Changing the document without touching marker or owner. */
  lemma DocOnly(s: System, d: Doc)
    requires Inv(s) && Marker(d) == Marker(s.doc) && Owner(d) == Owner(s.doc)
    ensures Inv(s.(doc := d))
  {
  }

  lemma MoreSeen(s: System, names: set<string>)
    requires Inv(s) && names <= s.remote
    ensures Inv(s.(seen := s.seen + names))
  {
  }

  lemma HonestShown(fields: seq<Field>, remote: set<string>)
    requires Honest(fields, remote)
    ensures Shown(fields) <= remote
  {
  }

  lemma PlanReadKeeps(s: System, e: Event)
    requires Inv(s) && e.PlanReadStep?
    ensures Inv(Step(s, e))
  {
    hide Inv, Shown;
    if Honest(e.fields, s.remote) {
      HonestShown(e.fields, s.remote);
      MoreSeen(s, Shown(e.fields));
      PlanAdded(s.(seen := s.seen + Shown(e.fields)), e.revision, e.fields);
    }
  }

  /** A read that was seen may be kept for a plan. */
  lemma PlanAdded(s: System, revision: int, fields: seq<Field>)
    requires Inv(s) && Shown(fields) <= s.seen
    ensures Inv(s.(plans := s.plans[s.nextPlan := (revision, fields)], nextPlan := s.nextPlan + 1))
  {
    hide Shown;
  }

  /** Publishing may release the journal, and clears the marker only for a field that was seen. */
  lemma Released(s: System, d: Doc)
    requires Inv(s) && Owner(d) == None
    requires Marker(d) == Marker(s.doc) || (Marker(d) == None && Marker(s.doc).Some? && Marker(s.doc).value in s.seen)
    ensures Inv(s.(doc := d))
  {
  }

  lemma PlanPublishKeeps(s: System, e: Event)
    requires Inv(s) && e.PlanPublishStep?
    ensures Inv(Step(s, e))
  {
    if e.plan in s.plans {
      var d := PublishPlan(s.doc, s.plans[e.plan].0, s.plans[e.plan].1, e.now);
      if d.Some? {
        Released(s, d.value);
      }
    }
  }

  /** A new attempt starts with no marker standing, so everything unresolved has been seen. */
  lemma NewAttempt(s: System, d: Doc, digest: PlanDigest)
    requires Inv(s) && Marker(s.doc) == None && Marker(d) == None && Owner(d) == Some(s.nextRun)
    ensures Inv(s.(doc := d, runs := s.runs[s.nextRun := Attempt(Reading, digest, s.seen)], nextRun := s.nextRun + 1))
  {
    hide UnresolvedIsLast, LaterAttemptsKnow;
    var t := s.(doc := d, runs := s.runs[s.nextRun := Attempt(Reading, digest, s.seen)], nextRun := s.nextRun + 1);
    assert forall r :: r in t.runs && r != s.nextRun ==> r in s.runs && t.runs[r] == s.runs[r];
    assert UnresolvedIsLast(t) by { NewAttemptIsLast(s, t); }
    assert LaterAttemptsKnow(t) by { NewAttemptKnows(s, t); }
  }

  /** `t` is `s` with one more attempt, which reads. */
  predicate AddsAttempt(s: System, t: System) {
    && t.posts == s.posts && t.marks == s.marks && s.nextRun in t.runs
    && t.runs[s.nextRun].phase.Reading? && t.runs[s.nextRun].known == s.seen
    && (forall r :: r in t.runs && r != s.nextRun ==> r in s.runs && t.runs[r] == s.runs[r])
    && (forall r :: r in s.runs ==> r in t.runs && r < s.nextRun && t.runs[r] == s.runs[r])
  }

  lemma NewAttemptIsLast(s: System, t: System)
    requires UnresolvedIsLast(s) && AddsAttempt(s, t)
    ensures UnresolvedIsLast(t)
  {
  }

  lemma NewAttemptKnows(s: System, t: System)
    requires LaterAttemptsKnow(s) && UnresolvedIsLast(s) && PostsCovered(s) && MarksCovered(s)
    requires Marker(s.doc) == None && AddsAttempt(s, t)
    ensures LaterAttemptsKnow(t)
  {
  }

  lemma StartKeeps(s: System, e: Event)
    requires Inv(s) && e.StartStep?
    ensures Inv(Step(s, e))
  {
    hide Inv;
    var d := StartRun(s.doc, e.revision, e.digest, e.confirmed, e.now, s.nextRun);
    if d.Some? {
      NewAttempt(s, d.value, e.digest);
    }
  }

  /** Ending or moving an attempt to a phase that carries no obligation. */
  lemma Quieted(s: System, run: nat, phase: Phase)
    requires Inv(s) && run in s.runs
    requires phase.Over? || phase.Ending?
    ensures Inv(At(s, run, phase))
  {
  }

  /** A save that keeps the marker, then the end of the attempt. */
  lemma StoppedKeeps(s: System, run: nat, u: Update)
    requires Inv(s) && run in s.runs && (u.Stop? || u.Complete?)
    ensures Inv(Saved(s, run, u, Over))
  {
    var d := Save(s.doc, run, u);
    if d.Some? {
      DocOnly(s, d.value);
      Quieted(s.(doc := d.value), run, Over);
    } else {
      Quieted(s, run, Over);
    }
  }

  lemma Enters(s: System, run: nat, todo: seq<string>)
    requires Inv(s) && run in s.runs && s.runs[run].phase.Reading?
    ensures Inv(At(s, run, Looping(todo)))
  {
  }

  lemma ReadKeeps(s: System, e: Event)
    requires Inv(s) && e.ReadStep?
    ensures Inv(Step(s, e))
  {
    hide Inv, Saved, At, MissingNames;
    if PhaseOf(s, e.run).Reading? && Honest(e.fields, s.remote) {
      HonestShown(e.fields, s.remote);
      MoreSeen(s, Shown(e.fields));
      var t := s.(seen := s.seen + Shown(e.fields));
      if e.fields != s.runs[e.run].digest.fields {
        StoppedKeeps(t, e.run, Stop(Stale));
      } else {
        Enters(t, e.run, MissingNames(e.fields));
      }
    }
  }

  lemma LastReadKeeps(s: System, e: Event)
    requires Inv(s) && e.LastReadStep?
    ensures Inv(Step(s, e))
  {
    hide Saved, Inv;
    if PhaseOf(s, e.run).Looping? && Honest(e.fields, s.remote) {
      HonestShown(e.fields, s.remote);
      MoreSeen(s, Shown(e.fields));
      StoppedKeeps(s.(seen := s.seen + Shown(e.fields)), e.run,
                   Complete(if forall f :: f in e.fields ==> f.status == ReadyField then Prepared else Waiting,
                            e.fields));
    }
  }

  /** The owner, with no marker standing, marks its next field. */
  lemma Marks(s: System, d: Doc, run: nat, todo: seq<string>)
    requires Inv(s) && run in s.runs && s.runs[run].phase == Looping(todo) && todo != []
    requires Owner(s.doc) == Some(run) && Owner(d) == Some(run) && Marker(d) == Some(todo[0])
    ensures Inv(At(s.(doc := d, marks := s.marks + {(run, todo[0])}), run, Marked(todo)))
  {
    assert Marker(s.doc) == None;
  }

  lemma MarkKeeps(s: System, e: Event)
    requires Inv(s) && e.MarkStep?
    ensures Inv(Step(s, e))
  {
    hide Inv;
    var p := PhaseOf(s, e.run);
    if p.Looping? && p.todo != [] {
      if Owner(s.doc) == Some(e.run) {
        Marks(s, Save(s.doc, e.run, Mark(p.todo[0])).value, e.run, p.todo);
      } else {
        Quieted(s, e.run, Over);
      }
    }
  }

  function Posted(s: System, run: nat, todo: seq<string>): System
    requires run in s.runs && todo != []
  {
    At(s, run, InFlight(todo, |s.posts|)).(posts := s.posts + [Post(run, todo[0], false)])
  }

  lemma PostedIsLast(s: System, run: nat, todo: seq<string>)
    requires UnresolvedIsLast(s) && MarksCovered(s) && run in s.runs && s.runs[run].phase == Marked(todo) && todo != []
    ensures UnresolvedIsLast(Posted(s, run, todo))
  {
  }

  lemma PostedIsKnownLater(s: System, run: nat, todo: seq<string>)
    requires LaterAttemptsKnow(s) && LatestOwns(s) && run in s.runs && s.runs[run].phase == Marked(todo) && todo != []
    ensures LaterAttemptsKnow(Posted(s, run, todo))
  {
  }

  /** The marked field is posted. */
  lemma Posts(s: System, run: nat, todo: seq<string>)
    requires Inv(s) && run in s.runs && s.runs[run].phase == Marked(todo) && todo != []
    ensures Inv(Posted(s, run, todo))
  {
    hide UnresolvedIsLast, LaterAttemptsKnow;
    PostedIsLast(s, run, todo);
    PostedIsKnownLater(s, run, todo);
    var posts := s.posts + [Post(run, todo[0], false)];
    assert forall i :: 0 <= i < |s.posts| ==> posts[i] == s.posts[i];
  }

  lemma PostKeeps(s: System, e: Event)
    requires Inv(s) && e.PostStep?
    ensures Inv(Step(s, e))
  {
    hide Inv;
    var p := PhaseOf(s, e.run);
    if p.Marked? && p.todo != [] {
      Posts(s, e.run, p.todo);
    }
  }

  function Resolved(s: System, run: nat, phase: Phase): System
    requires run in s.runs && s.runs[run].phase.InFlight? && s.runs[run].phase.post < |s.posts|
  {
    var k := s.runs[run].phase.post;
    At(s.(posts := s.posts[k := s.posts[k].(resolved := true)]), run, phase)
  }

  lemma ResolvedLeavesLast(s: System, run: nat, phase: Phase)
    requires UnresolvedIsLast(s) && run in s.runs && s.runs[run].phase.InFlight? && s.runs[run].phase.post < |s.posts|
    requires phase.Settling? || phase.Clearing?
    ensures UnresolvedIsLast(Resolved(s, run, phase))
  {
  }

  /** A known answer resolves the POST. */
  lemma Resolves(s: System, run: nat, phase: Phase)
    requires Inv(s) && run in s.runs && s.runs[run].phase.InFlight? && s.runs[run].phase.post < |s.posts|
    requires phase.Settling? || phase.Clearing?
    ensures Inv(Resolved(s, run, phase))
  {
    hide UnresolvedIsLast, LaterAttemptsKnow;
    ResolvedLeavesLast(s, run, phase);
    ResolvedKnows(s, run, phase);
    var t := Resolved(s, run, phase);
    forall i | 0 <= i < |t.posts| && !t.posts[i].resolved
      ensures t.posts[i] == s.posts[i]
    {
    }
  }

  lemma ResolvedKnows(s: System, run: nat, phase: Phase)
    requires LaterAttemptsKnow(s)
    requires run in s.runs && s.runs[run].phase.InFlight? && s.runs[run].phase.post < |s.posts|
    requires phase.Settling? || phase.Clearing?
    ensures LaterAttemptsKnow(Resolved(s, run, phase))
  {
  }

  lemma AnswerKeeps(s: System, e: Event)
    requires Inv(s) && e.AnswerStep?
    ensures Inv(Step(s, e))
  {
    hide Inv;
    var p := PhaseOf(s, e.run);
    if p.InFlight? && p.post < |s.posts| && p.todo != [] {
      if e.answer == Unknown {
        Quieted(s, e.run, Ending);
      } else {
        Resolves(s, e.run, AfterAnswer(s, e.run, e.answer).runs[e.run].phase);
      }
    }
  }

  /** The owner clears its marker: every other field that could need it has been seen. */
  lemma ClearedCovers(s: System, run: nat)
    requires Inv(s) && run in s.runs && Owner(s.doc) == Some(run)
    requires !s.runs[run].phase.Ending? && !s.runs[run].phase.Over? && !s.runs[run].phase.InFlight?
             && !s.runs[run].phase.Marked?
    ensures forall i :: 0 <= i < |s.posts| && !s.posts[i].resolved ==> s.posts[i].name in s.seen
    ensures forall r :: r in s.runs && s.runs[r].phase.Marked? && s.runs[r].phase.todo != [] ==>
            s.runs[r].phase.todo[0] in s.seen
  {
  }

  /** The marker goes; the attempt moves on or ends. */
  lemma Clears(s: System, d: Doc, run: nat, phase: Phase)
    requires Inv(s) && run in s.runs && (s.runs[run].phase.Settling? || s.runs[run].phase.Clearing?)
    requires Owner(s.doc) == Some(run) && Owner(d) == Some(run) && Marker(d) == None && (phase.Looping? || phase.Over?)
    ensures Inv(At(s.(doc := d), run, phase))
  {
    ClearedCovers(s, run);
  }

  lemma SettleKeeps(s: System, e: Event)
    requires Inv(s) && e.SettleStep?
    ensures Inv(Step(s, e))
  {
    hide Inv;
    var p := PhaseOf(s, e.run);
    if p.Settling? || p.Clearing? {
      if Owner(s.doc) == Some(e.run) {
        var u := if p.Settling? then Settle else StopClear(p.status);
        Clears(s, Save(s.doc, e.run, u).value, e.run, if p.Settling? then Looping(p.todo) else Over);
      } else {
        Quieted(s, e.run, Over);
      }
    }
  }

  lemma DocStepKeeps(s: System, e: Event)
    requires Inv(s)
    requires e.ConfigureStep? || e.BeginStep? || e.PublishStep? || e.StatusStep? || e.FinishStep? || e.CancelStep?
    ensures Inv(Step(s, e))
  {
    DocOnly(s, Step(s, e).doc);
  }

  lemma StepKeeps(s: System, e: Event)
    requires Inv(s)
    ensures Inv(Step(s, e))
  {
    match e
    case ConfigureStep(_) => DocStepKeeps(s, e);
    case BeginStep(_, _, _) => DocStepKeeps(s, e);
    case PublishStep(_, _, _, _) => DocStepKeeps(s, e);
    case StatusStep(_) => DocStepKeeps(s, e);
    case FinishStep(_, _) => DocStepKeeps(s, e);
    case CancelStep(_) => DocStepKeeps(s, e);
    case PlanReadStep(_, _) => PlanReadKeeps(s, e);
    case PlanPublishStep(_, _) => PlanPublishKeeps(s, e);
    case StartStep(_, _, _, _) => StartKeeps(s, e);
    case ReadStep(_, _) => ReadKeeps(s, e);
    case MarkStep(_) => MarkKeeps(s, e);
    case PostStep(_) => PostKeeps(s, e);
    case AnswerStep(_, _) => AnswerKeeps(s, e);
    case SettleStep(_) => SettleKeeps(s, e);
    case StopStep(run, status) => if run in s.runs { StoppedKeeps(s, run, Stop(status)); }
    case LastReadStep(_, _) => LastReadKeeps(s, e);
    case RemoteStep(_) =>
  }

  lemma {:induction false} RunKeeps(remote: set<string>, events: seq<Event>)
    ensures Inv(Run(remote, events))
  {
    hide Step;
    if events != [] {
      RunKeeps(remote, events[..|events| - 1]);
      StepKeeps(Run(remote, events[..|events| - 1]), events[|events| - 1]);
    }
  }

  /**
   No blind retry, over every interleaving of plans, cancellations, reconfigurations, validations and
   attempts, each of which may stop anywhere. Every POST follows a saved marker of its own attempt. If a
   POST has no known outcome, its attempt sends nothing more, and any attempt that started later and
   sends a POST started after an inventory read had shown that field, so the field exists.
   */
  lemma NoBlindRetry(remote: set<string>, events: seq<Event>, i: nat, j: nat)
    requires var s := Run(remote, events);
      i < |s.posts| && j < |s.posts| && i != j && !s.posts[i].resolved && s.posts[i].run <= s.posts[j].run
    ensures var s := Run(remote, events);
      && (s.posts[i].run, s.posts[i].name) in s.marks
      && (s.posts[i].run == s.posts[j].run ==> j < i)
      && (s.posts[i].run < s.posts[j].run ==>
            s.posts[j].run in s.runs && s.posts[i].name in s.runs[s.posts[j].run].known && s.posts[i].name in s.remote)
  {
    hide Run;
    RunKeeps(remote, events);
  }

  function RunFrom(s: System, events: seq<Event>): System {
    if events == [] then s else Step(RunFrom(s, events[..|events| - 1]), events[|events| - 1])
  }

  /** The attempt lost the journal and has no saved marker waiting for its POST. */
  predicate Fenced(s: System, run: nat) {
    run in s.runs && Owner(s.doc) != Some(run) && !s.runs[run].phase.Marked?
  }

  lemma FencedRead(s: System, e: Event, run: nat)
    requires Fenced(s, run) && (e.ReadStep? || e.LastReadStep?)
    ensures Fenced(Step(s, e), run) && Step(s, e).posts == s.posts
  {
    hide Honest, Shown, MissingNames;
  }

  lemma FencedSend(s: System, e: Event, run: nat)
    requires Fenced(s, run) && (e.MarkStep? || e.PostStep?)
    ensures Fenced(Step(s, e), run)
    ensures |Step(s, e).posts| >= |s.posts|
    ensures forall i :: |s.posts| <= i < |Step(s, e).posts| ==> Step(s, e).posts[i].run != run
  {
  }

  lemma FencedOutcome(s: System, e: Event, run: nat)
    requires Fenced(s, run) && (e.AnswerStep? || e.SettleStep? || e.StopStep?)
    ensures Fenced(Step(s, e), run)
    ensures |Step(s, e).posts| >= |s.posts|
    ensures forall i :: |s.posts| <= i < |Step(s, e).posts| ==> Step(s, e).posts[i].run != run
  {
  }

  lemma FencedDocStep(s: System, e: Event, run: nat)
    requires LatestOwns(s) && Fenced(s, run)
    requires e.ConfigureStep? || e.BeginStep? || e.PublishStep? || e.StatusStep? || e.FinishStep? || e.CancelStep?
             || e.PlanReadStep? || e.PlanPublishStep? || e.StartStep? || e.RemoteStep?
    ensures Fenced(Step(s, e), run) && Step(s, e).posts == s.posts
  {
    hide Honest, Shown, Shows;
  }

  lemma FencedStep(s: System, e: Event, run: nat)
    requires Inv(s) && Fenced(s, run)
    ensures Fenced(Step(s, e), run)
    ensures |Step(s, e).posts| >= |s.posts|
    ensures forall i :: |s.posts| <= i < |Step(s, e).posts| ==> Step(s, e).posts[i].run != run
  {
    hide Step, Fenced;
    if e.ReadStep? || e.LastReadStep? {
      FencedRead(s, e, run);
    } else if e.MarkStep? || e.PostStep? {
      FencedSend(s, e, run);
    } else if e.AnswerStep? || e.SettleStep? || e.StopStep? {
      FencedOutcome(s, e, run);
    } else {
      FencedDocStep(s, e, run);
    }
  }

  /** A superseded attempt stops at its next marker: it never sends another POST. */
  lemma {:induction false} SupersededSendsNothing(s: System, events: seq<Event>, run: nat)
    requires Inv(s) && Fenced(s, run)
    ensures var t := RunFrom(s, events);
      Inv(t) && Fenced(t, run) && |t.posts| >= |s.posts| && forall i :: |s.posts| <= i < |t.posts| ==>
        t.posts[i].run != run
  {
    hide Step, Inv, Fenced;
    if events != [] {
      var init, last := events[..|events| - 1], events[|events| - 1];
      SupersededSendsNothing(s, init, run);
      var t := RunFrom(s, init);
      FencedStep(t, last, run);
      StepKeeps(t, last);
      PostsKept(t, last);
    }
  }

  lemma PostsKept(s: System, e: Event)
    ensures |Step(s, e).posts| >= |s.posts|
    ensures forall i :: 0 <= i < |s.posts| ==> Step(s, e).posts[i].run == s.posts[i].run
  {
    hide Honest, Shown, MissingNames, Save, PublishPlan, Cancel, StartRun;
  }

  // -------------------------------------------------------------- as it runs

  lemma RunFromSnoc(s: System, events: seq<Event>, e: Event)
    ensures RunFrom(s, events + [e]) == Step(RunFrom(s, events), e)
  {
  }

  lemma RunFromNone(s: System)
    ensures RunFrom(s, []) == s
  {
  }

  /** The steps of one attempt per answer: an unknown outcome keeps the marker, a known one clears it. */
  function Blocks(run: nat, answers: seq<Answer>): seq<Event> {
    if answers == [] then []
    else
      var last := answers[|answers| - 1];
      Blocks(run, answers[..|answers| - 1])
      + [MarkStep(run)] + [PostStep(run)] + [AnswerStep(run, last)]
      + [if last == Unknown then StopStep(run, PrepUncertain) else SettleStep(run)]
  }

  function Created(run: nat, names: seq<string>): seq<Post> {
    seq(|names|, i requires 0 <= i < |names| => Post(run, names[i], true))
  }

  /** The process owns the journal, stands at a phase, and has this marker standing. */
  predicate Stands(s: System, run: nat, phase: Phase, marker: Option<string>) {
    run in s.runs && s.runs[run].phase == phase && Owner(s.doc) == Some(run) && Marker(s.doc) == marker
  }

  lemma Marking(s: System, run: nat, todo: seq<string>)
    requires Stands(s, run, Looping(todo), None) && todo != []
    ensures Stands(AfterMark(s, run), run, Marked(todo), Some(todo[0]))
    ensures AfterMark(s, run).posts == s.posts && AfterMark(s, run).marks == s.marks + {(run, todo[0])}
  {
  }

  lemma Sending(s: System, run: nat, todo: seq<string>)
    requires todo != [] && Stands(s, run, Marked(todo), Some(todo[0]))
    ensures Stands(AfterPost(s, run), run, InFlight(todo, |s.posts|), Some(todo[0]))
    ensures AfterPost(s, run).posts == s.posts + [Post(run, todo[0], false)] && AfterPost(s, run).marks == s.marks
  {
  }

  function PhaseAfter(answer: Answer, todo: seq<string>): Phase
    requires todo != []
  {
    match answer
    case WasCreated => Settling(todo[1..])
    case WasReconciled => Settling(todo[1..])
    case WasRejected => Clearing(Rejected)
    case WasNotSent(status) => Clearing(status)
    case Unknown => Ending
  }

  lemma Knowing(s: System, run: nat, todo: seq<string>, sent: seq<Post>, answer: Answer)
    requires todo != [] && Stands(s, run, InFlight(todo, |sent|), Some(todo[0]))
    requires s.posts == sent + [Post(run, todo[0], false)]
    ensures Stands(AfterAnswer(s, run, answer), run, PhaseAfter(answer, todo), Some(todo[0]))
    ensures AfterAnswer(s, run, answer).posts == sent + [Post(run, todo[0], answer != Unknown)]
    ensures AfterAnswer(s, run, answer).marks == s.marks
  {
  }

  lemma Closing(s: System, run: nat, todo: seq<string>, marker: Option<string>)
    requires Stands(s, run, Settling(todo), marker)
    ensures Stands(AfterSettle(s, run), run, Looping(todo), None)
    ensures AfterSettle(s, run).posts == s.posts && AfterSettle(s, run).marks == s.marks
  {
  }

  /** The four steps of one field. */
  function FieldSteps(run: nat): seq<Event> {
    [MarkStep(run)] + [PostStep(run)] + [AnswerStep(run, WasCreated)] + [SettleStep(run)]
  }

  lemma FieldStepIs(run: nat)
    ensures forall s :: Step(s, MarkStep(run)) == AfterMark(s, run) && Step(s, PostStep(run)) == AfterPost(s, run)
    ensures forall s :: Step(s, AnswerStep(run, WasCreated)) == AfterAnswer(s, run, WasCreated)
    ensures forall s :: Step(s, SettleStep(run)) == AfterSettle(s, run)
  {
  }

  /** One created field: marked, posted, known and cleared. */
  lemma OneFieldCreated(s: System, before: seq<Event>, run: nat, todo: seq<string>)
    requires Stands(RunFrom(s, before), run, Looping(todo), None) && todo != []
    ensures var done := RunFrom(s, before + FieldSteps(run));
            && Stands(done, run, Looping(todo[1..]), None)
            && done.posts == RunFrom(s, before).posts + [Post(run, todo[0], true)]
            && done.marks == RunFrom(s, before).marks + {(run, todo[0])}
  {
    hide Stands, RunFrom, AfterMark, AfterPost, AfterAnswer, AfterSettle, Step;
    FieldStepIs(run);
    var s0 := RunFrom(s, before);
    var e1, e2, e3 := MarkStep(run), PostStep(run), AnswerStep(run, WasCreated);
    RunFromSnoc(s, before, e1);
    RunFromSnoc(s, before + [e1], e2);
    RunFromSnoc(s, before + [e1] + [e2], e3);
    RunFromSnoc(s, before + [e1] + [e2] + [e3], SettleStep(run));
    assert before + FieldSteps(run) == before + [e1] + [e2] + [e3] + [SettleStep(run)];
    var s1 := AfterMark(s0, run);
    var s2 := AfterPost(s1, run);
    var s3 := AfterAnswer(s2, run, WasCreated);
    Marking(s0, run, todo);
    Sending(s1, run, todo);
    Knowing(s2, run, todo, s0.posts, WasCreated);
    Closing(s3, run, todo[1..], Some(todo[0]));
  }

  function Creations(n: nat): seq<Answer> {
    if n == 0 then [] else Creations(n - 1) + [WasCreated]
  }

  /** When every answer is a creation, every missing field is posted once, in order, and no marker is left. */
  lemma {:induction false} EveryFieldCreated(s: System, run: nat, todo: seq<string>, n: nat)
    requires Stands(s, run, Looping(todo), None) && n <= |todo|
    ensures var done := RunFrom(s, Blocks(run, Creations(n)));
            Stands(done, run, Looping(todo[n..]), None) && done.posts == s.posts + Created(run, todo[..n])
  {
    hide Stands, RunFrom;
    if n == 0 {
      RunFromNone(s);
      assert todo[0..] == todo && Created(run, todo[..0]) == [];
    } else {
      EveryFieldCreated(s, run, todo, n - 1);
      var before := Blocks(run, Creations(n - 1));
      OneFieldCreated(s, before, run, todo[n - 1..]);
      BlocksNext(run, n);
      assert todo[n - 1..][1..] == todo[n..] && todo[n - 1..][0] == todo[n - 1];
      assert Created(run, todo[..n]) == Created(run, todo[..n - 1]) + [Post(run, todo[n - 1], true)];
    }
  }

  lemma BlocksNext(run: nat, n: nat)
    requires n > 0
    ensures Blocks(run, Creations(n)) == Blocks(run, Creations(n - 1)) + FieldSteps(run)
  {
    var answers := Creations(n);
    assert answers[..|answers| - 1] == Creations(n - 1);
  }

  /** An attempt starts with exactly the missing fields of the plan it was confirmed for. */
  lemma StartReads(s: System, e: Event, fields: seq<Field>)
    requires Inv(s) && e.StartStep? && StartRun(s.doc, e.revision, e.digest, e.confirmed, e.now, s.nextRun).Some?
    requires fields == e.digest.fields && Honest(fields, s.remote)
    ensures var started := Step(s, e);
            && Stands(Step(started, ReadStep(s.nextRun, fields)), s.nextRun, Looping(MissingNames(fields)), None)
            && Step(started, ReadStep(s.nextRun, fields)).posts == s.posts
  {
    hide MissingNames;
  }

  lemma MissingOne(f: Field)
    ensures MissingNames([f]) == if f.status == MissingField then [f.name] else []
  {
    assert [f][1..] == [];
  }

  /** The missing fields of a plan are those of its parts, in order. */
  lemma {:induction false} MissingJoin(a: seq<Field>, b: seq<Field>)
    ensures MissingNames(a + b) == MissingNames(a) + MissingNames(b)
  {
    if a == [] {
      assert a + b == b;
    } else {
      var first := if a[0].status == MissingField then [a[0].name] else [];
      calc {
        MissingNames(a + b);
        { assert (a + b)[1..] == a[1..] + b && (a + b)[0] == a[0]; }
        first + MissingNames(a[1..] + b);
        { MissingJoin(a[1..], b); }
        first + (MissingNames(a[1..]) + MissingNames(b));
        MissingNames(a) + MissingNames(b);
      }
    }
  }

  /** The attempt is over, and the journal says how it ended and which field is still uncertain. */
  predicate EndedAs(s: System, run: nat, status: PrepStatus, marker: Option<string>) {
    Stands(s, run, Over, marker) && s.doc.prep.value.status == status
  }

  /** A read of other fields than those confirmed ends the attempt before it sends anything. */
  lemma StaleReadEnds(s: System, run: nat, fields: seq<Field>)
    requires Stands(s, run, Reading, None) && Honest(fields, s.remote) && fields != s.runs[run].digest.fields
    ensures var t := Step(s, ReadStep(run, fields)); EndedAs(t, run, Stale, None) && t.posts == s.posts
  {
  }

  /** What the answer to a POST means for its attempt, once the outcome is saved. */
  lemma AnswerDecides(s: System, run: nat, todo: seq<string>, sent: seq<Post>, answer: Answer)
    requires todo != [] && Stands(s, run, InFlight(todo, |sent|), Some(todo[0]))
    requires s.posts == sent + [Post(run, todo[0], false)]
    ensures var t := AfterSettle(AfterAnswer(s, run, answer), run);
            && t.posts == sent + [Post(run, todo[0], answer != Unknown)]
            && match answer
               case WasCreated => Stands(t, run, Looping(todo[1..]), None)
               case WasReconciled => Stands(t, run, Looping(todo[1..]), None)
               case WasRejected => EndedAs(t, run, Rejected, None)
               case WasNotSent(status) => EndedAs(t, run, status, None)
               case Unknown => Stands(t, run, Ending, Some(todo[0]))
  {
    hide AfterAnswer, AfterSettle, EndedAs, Stands;
    Knowing(s, run, todo, sent, answer);
    var t := AfterAnswer(s, run, answer);
    match answer
    case WasCreated => Closing(t, run, todo[1..], Some(todo[0]));
    case WasReconciled => Closing(t, run, todo[1..], Some(todo[0]));
    case WasRejected => Refusing(t, run, Rejected, Some(todo[0]));
    case WasNotSent(status) => Refusing(t, run, status, Some(todo[0]));
    case Unknown => Doubting(t, run, Some(todo[0]));
  }

  lemma Refusing(s: System, run: nat, status: PrepStatus, marker: Option<string>)
    requires Stands(s, run, Clearing(status), marker)
    ensures EndedAs(AfterSettle(s, run), run, status, None) && AfterSettle(s, run).posts == s.posts
  {
  }

  /** An uncertain attempt ends with its marker standing. */
  lemma Doubting(s: System, run: nat, marker: Option<string>)
    requires Stands(s, run, Ending, marker)
    ensures AfterSettle(s, run) == s
    ensures var t := Step(s, StopStep(run, PrepUncertain)); EndedAs(t, run, PrepUncertain, marker) && t.posts == s.posts
  {
  }

  predicate AllReady(fields: seq<Field>) {
    forall f :: f in fields ==> f.status == ReadyField
  }

  /** With nothing left to do the last read ends the attempt, prepared exactly when every field is ready. */
  lemma LastReadEnds(s: System, run: nat, todo: seq<string>, fields: seq<Field>)
    requires Stands(s, run, Looping(todo), None) && Honest(fields, s.remote)
    ensures var t := Step(s, LastReadStep(run, fields));
            && t.posts == s.posts
            && (todo != [] ==> t == s)
            && (todo == [] ==>
                  && EndedAs(t, run, if AllReady(fields) then Prepared else Waiting, None)
                  && t.doc.prep.value.fields == fields)
  {
    hide Honest, Shown;
  }

  /**
   A whole uninterrupted attempt: it posts exactly the missing fields of the confirmed plan, in order and once
   each, leaves no marker, and ends prepared exactly when the last read shows every field ready.
   */
  lemma AttemptPrepares(s: System, e: Event, fields: seq<Field>, last: seq<Field>)
    requires Inv(s) && e.StartStep? && StartRun(s.doc, e.revision, e.digest, e.confirmed, e.now, s.nextRun).Some?
    requires fields == e.digest.fields && Honest(fields, s.remote)
    ensures var run, todo := s.nextRun, MissingNames(fields);
            var read := Step(Step(s, e), ReadStep(run, fields));
            var done := RunFrom(read, Blocks(run, Creations(|todo|)));
            && done.posts == s.posts + Created(run, todo)
            && (Honest(last, done.remote) ==>
                  var t := Step(done, LastReadStep(run, last));
                  t.posts == done.posts && EndedAs(t, run, if AllReady(last) then Prepared else Waiting, None))
  {
    var run, todo := s.nextRun, MissingNames(fields);
    hide *;
    StartReads(s, e, fields);
    var read := Step(Step(s, e), ReadStep(run, fields));
    EveryFieldCreated(read, run, todo, |todo|);
    assert todo[..|todo|] == todo && todo[|todo|..] == [];
    var done := RunFrom(read, Blocks(run, Creations(|todo|)));
    if Honest(last, done.remote) {
      LastReadEnds(done, run, [], last);
    }
  }

  /** One process working through the missing fields; other processes' steps are those of the interleaving. */
  class Preparation {
    var sys: System

    constructor (s: System)
      ensures sys == s
    {
      sys := s;
    }

    /**
     The field loop of `_execute_run`: marker, POST, outcome, for each missing field until one stops it.
     It goes on exactly while fields are missing and answers come.
     */
    method ExecuteFields(run: nat, answers: seq<Answer>) returns (used: nat, ghost trace: seq<Event>)
      requires Inv(sys)
      modifies this
      ensures Inv(sys) && used <= |answers|
      ensures trace == Blocks(run, answers[..used]) && sys == RunFrom(old(sys), trace)
      ensures used < |answers| ==> !(PhaseOf(sys, run).Looping? && PhaseOf(sys, run).todo != [])
    {
      hide Inv, Step, RunFrom;
      assert RunFrom(sys, []) == sys by { RunFromNone(sys); }
      trace, used := [], 0;
      while used < |answers| && PhaseOf(sys, run).Looping? && PhaseOf(sys, run).todo != []
        invariant used <= |answers| && Inv(sys) && sys == RunFrom(old(sys), trace)
                  && trace == Blocks(run, answers[..used])
      {
        trace := Act(run, MarkStep(run), old(sys), trace);
        trace := Act(run, PostStep(run), old(sys), trace);
        trace := Act(run, AnswerStep(run, answers[used]), old(sys), trace);
        if answers[used] == Unknown {
          trace := Act(run, StopStep(run, PrepUncertain), old(sys), trace);
        } else {
          trace := Act(run, SettleStep(run), old(sys), trace);
        }
        assert answers[..used + 1][..used] == answers[..used];
        used := used + 1;
      }
    }

    /** One atomic step of this process. */
    method Act(run: nat, e: Event, ghost start: System, ghost before: seq<Event>) returns (ghost trace: seq<Event>)
      requires Inv(sys) && sys == RunFrom(start, before)
      requires e in {MarkStep(run), PostStep(run), SettleStep(run)} || e.AnswerStep? || e.StopStep?
      modifies this
      ensures Inv(sys) && trace == before + [e] && sys == RunFrom(start, trace) && sys == Step(old(sys), e)
    {
      hide Inv, AfterMark, AfterPost, AfterAnswer, AfterSettle, Saved, RunFrom;
      StepKeeps(sys, e);
      RunFromSnoc(start, before, e);
      trace := before + [e];
      match e {
        case MarkStep(r) => sys := AfterMark(sys, r);
        case PostStep(r) => sys := AfterPost(sys, r);
        case AnswerStep(r, answer) => sys := AfterAnswer(sys, r, answer);
        case SettleStep(r) => sys := AfterSettle(sys, r);
        case StopStep(r, status) =>
          if r in sys.runs {
            sys := Saved(sys, r, Stop(status), Over);
          }
      }
    }
  }
}
