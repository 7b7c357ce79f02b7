/** READY is always justified: validation under every interleaving of locked sections and probes. */
module BootstrapReadiness {
  import opened Wrappers
  import opened BootstrapDocument

  /** A probe in flight: what it was started with, and its answer once it came back. */
  datatype Probe = Probe(revision: nat, creds: Credentials, result: Option<ProbeResult>)

  /** `nextAttempt` numbers the fresh attempt ids. */
  datatype System = System(doc: Doc, probes: map<nat, Probe>, nextAttempt: nat)

  const INITIAL := System(FRESH, map[], 0)

  /** One atomic step; a crash is a step that never comes. Preparation steps may carry anything. */
  datatype Event =
    | ConfigureStep(payload: Payload)
    | BeginStep(revision: int, now: int)
    | AnswerStep(attempt: nat, result: ProbeResult)
    | PublishStep(attempt: nat, now: int)
    | StatusStep(now: int)
    | FinishStep(revision: int, now: int)
    | PlanStep(revision: int, fields: seq<Field>, now: int)
    | CancelStep(revision: int)
    | StartStep(revision: int, digest: PlanDigest, confirmed: bool, now: int, run: nat)
    | SaveStep(run: nat, update: Update)

  function Step(s: System, e: Event): System {
    match e
    case ConfigureStep(p) => s.(doc := Or(s.doc, Configure(s.doc, p)))
    case BeginStep(revision, now) =>
      var d := BeginValidation(s.doc, revision, now, s.nextAttempt);
      if d.None? then s
      else System(d.value, s.probes[s.nextAttempt := Probe(s.doc.revision, s.doc.creds, None)], s.nextAttempt + 1)
    case AnswerStep(attempt, result) =>
      if attempt in s.probes && s.probes[attempt].result.None?
      then s.(probes := s.probes[attempt := s.probes[attempt].(result := Some(result))]) else s
    case PublishStep(attempt, now) =>
      if attempt in s.probes && s.probes[attempt].result.Some?
      then
        var p := s.probes[attempt];
        s.(doc := PublishValidation(s.doc, p.revision, attempt, p.result.value, now))
      else s
    case StatusStep(now) => s.(doc := Expire(s.doc, now))
    case FinishStep(revision, now) => s.(doc := Or(s.doc, Finish(s.doc, revision, now)))
    case PlanStep(revision, fields, now) => s.(doc := Or(s.doc, PublishPlan(s.doc, revision, fields, now)))
    case CancelStep(revision) => s.(doc := Or(s.doc, Cancel(s.doc, revision)))
    case StartStep(revision, digest, confirmed, now, run) =>
      s.(doc := Or(s.doc, StartRun(s.doc, revision, digest, confirmed, now, run)))
    case SaveStep(run, u) => s.(doc := Or(s.doc, Save(s.doc, run, u)))
  }

  function Run(events: seq<Event>): System {
    if events == [] then INITIAL else Step(Run(events[..|events| - 1]), events[|events| - 1])
  }

  /** Some probe answered for exactly these credentials, and accepted. */
  predicate Proved(probes: map<nat, Probe>, creds: Credentials) {
    exists a :: a in probes && probes[a].creds == creds && probes[a].result.Some? && Accepts(probes[a].result.value)
  }

  predicate Inv(s: System) {
    && (s.doc.status == Validated || s.doc.status == Ready ==> Proved(s.probes, s.doc.creds))
    && (forall a :: a in s.probes ==>
          && a < s.nextAttempt
          && s.probes[a].revision <= s.doc.revision
          && (s.probes[a].revision == s.doc.revision ==> s.probes[a].creds == s.doc.creds))
  }

  /** Probes are never forgotten and never answer twice. */
  lemma ProofsStand(s: System, e: Event, creds: Credentials)
    requires Inv(s) && Proved(s.probes, creds)
    ensures Proved(Step(s, e).probes, creds)
  {
    var a :| a in s.probes && s.probes[a].creds == creds && s.probes[a].result.Some?
      && Accepts(s.probes[a].result.value);
    assert a in Step(s, e).probes && Step(s, e).probes[a] == s.probes[a];
  }

  /** Credentials change only by a configuration that leaves READY and VALIDATED. */
  lemma DocMoves(s: System, e: Event)
    requires !e.PublishStep?
    ensures var d := Step(s, e).doc;
      && (d.status == Validated || d.status == Ready ==>
        d.creds == s.doc.creds && (s.doc.status == Validated || s.doc.status == Ready))
      && d.revision >= s.doc.revision
      && (d.revision == s.doc.revision ==> d.creds == s.doc.creds)
  {
  }

  lemma StepKeeps(s: System, e: Event)
    requires Inv(s)
    ensures Inv(Step(s, e))
  {
    hide Proved;
    var after := Step(s, e);
    if Proved(s.probes, s.doc.creds) {
      ProofsStand(s, e, s.doc.creds);
    }
    if e.PublishStep? {
      if after.doc != s.doc && after.doc.status == Validated {
        PublishedIsProved(s, e.attempt);
      }
    } else {
      DocMoves(s, e);
    }
  }

  lemma PublishedIsProved(s: System, attempt: nat)
    requires attempt in s.probes && s.probes[attempt].creds == s.doc.creds
    requires s.probes[attempt].result.Some? && Accepts(s.probes[attempt].result.value)
    ensures Proved(s.probes, s.doc.creds)
  {
  }

  lemma {:induction false} RunKeeps(events: seq<Event>)
    ensures Inv(Run(events))
  {
    hide Step;
    if events != [] {
      RunKeeps(events[..|events| - 1]);
      StepKeeps(Run(events[..|events| - 1]), events[|events| - 1]);
    }
  }

  /**
   Under every interleaving: whatever credentials `runtime_netbox` hands out are the stored ones, and
   some probe was started with exactly that URL and both tokens and accepted them with all checks ok.
   */
  lemma HandedOutCredentialsWereProbed(events: seq<Event>)
    ensures var s := Run(events);
      RuntimeNetbox(s.doc).Some? ==> RuntimeNetbox(s.doc).value == s.doc.creds && Proved(s.probes, s.doc.creds)
  {
    RunKeeps(events);
  }

  /** A newer configuration or a newer attempt has replaced the probe. */
  predicate Superseded(s: System, a: nat)
    requires a in s.probes
  {
    s.probes[a].revision < s.doc.revision || s.doc.attempt != Some(a)
  }

  /** From `s`, any further events. */
  function RunFrom(s: System, events: seq<Event>): System {
    if events == [] then s else Step(RunFrom(s, events[..|events| - 1]), events[|events| - 1])
  }

  lemma SupersededStays(s: System, e: Event, a: nat)
    requires Inv(s) && a in s.probes && Superseded(s, a)
    ensures a in Step(s, e).probes && Superseded(Step(s, e), a)
  {
  }

  /** Once superseded, a probe never publishes again, however late it answers. */
  lemma {:induction false} SupersededNeverPublishes(s: System, events: seq<Event>, a: nat, now: int)
    requires Inv(s) && a in s.probes && Superseded(s, a)
    ensures var t := RunFrom(s, events);
      Inv(t) && a in t.probes && Superseded(t, a) && Step(t, PublishStep(a, now)).doc == t.doc
  {
    if events != [] {
      var init, last := events[..|events| - 1], events[|events| - 1];
      SupersededNeverPublishes(s, init, a, now);
      SupersededStays(RunFrom(s, init), last, a);
      StepKeeps(RunFrom(s, init), last);
    }
  }
}
