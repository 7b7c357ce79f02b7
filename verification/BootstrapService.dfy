/**
 The bootstrap document as the service replaces it, one locked section per method. Beside the document
 the store carries both histories, of validation and of preparation, and every section keeps both.
 */
module BootstrapService {
  import opened Wrappers
  import opened BootstrapDocument
  import R = BootstrapReadiness
  import P = BootstrapPreparation

  /** Every POST without a known outcome has been shown by an inventory read. */
  ghost predicate AllSeen(s: P.System) {
    forall i :: 0 <= i < |s.posts| && !s.posts[i].resolved ==> s.posts[i].name in s.seen
  }

  /** The event of an attempt that saves `u` into the journal. */
  ghost predicate Saves(s: P.System, e: P.Event, run: nat, u: Update) {
    var p := P.PhaseOf(s, run);
    run in s.runs &&
    match e
    case MarkStep(r) => r == run && p.Looping? && p.todo != [] && u == Mark(p.todo[0])
    case SettleStep(r) =>
      r == run && ((p.Settling? && u == Settle) || (p.Clearing? && u == StopClear(p.status)))
    case StopStep(r, status) => r == run && u == Stop(status)
    case ReadStep(r, fields) =>
      && r == run && p.Reading? && P.Honest(fields, s.remote)
      && fields != s.runs[run].digest.fields && u == Stop(Stale)
    case LastReadStep(r, fields) =>
      && r == run && p.Looping? && p.todo == [] && P.Honest(fields, s.remote)
      && u == Complete(if forall f :: f in fields ==> f.status == ReadyField then Prepared else Waiting, fields)
    case _ => false
  }

  lemma SavesIsSave(s: P.System, e: P.Event, run: nat, u: Update)
    requires Saves(s, e, run, u)
    ensures P.Step(s, e).doc == Or(s.doc, Save(s.doc, run, u))
  {
  }

  /** A plan that may start has no marker standing, so nothing is left that could be created twice. */
  lemma UnmarkedIsSeen(s: P.System)
    requires P.Inv(s) && P.Marker(s.doc) == None
    ensures AllSeen(s)
  {
  }

  lemma SameSeen(s: P.System, t: P.System)
    ensures t.posts == s.posts && t.seen == s.seen && AllSeen(s) ==> AllSeen(t)
  {
  }

  class BootstrapStore {
    var doc: Doc
    ghost var validation: R.System
    ghost var preparation: P.System

    ghost predicate Valid()
      reads this
    {
      validation.doc == doc && preparation.doc == doc && R.Inv(validation) && P.Inv(preparation)
    }

    constructor (ghost remote: set<string>)
      ensures Valid() && doc == FRESH && validation == R.INITIAL && preparation == P.Initial(remote)
    {
      doc, validation, preparation := FRESH, R.INITIAL, P.Initial(remote);
      new;
      P.RunKeeps(remote, []);
      R.RunKeeps([]);
    }

    /** Both histories take their step; the document is what the section wrote. */
    ghost method Record(e: R.Event, f: P.Event)
      requires R.Inv(validation) && P.Inv(preparation)
      requires R.Step(validation, e).doc == doc && P.Step(preparation, f).doc == doc
      modifies this`validation, this`preparation
      ensures Valid()
      ensures validation == R.Step(old(validation), e) && preparation == P.Step(old(preparation), f)
    {
      hide R.Inv, P.Inv, R.Step, P.Step;
      R.StepKeeps(validation, e);
      P.StepKeeps(preparation, f);
      validation, preparation := R.Step(validation, e), P.Step(preparation, f);
    }

    /** A step of preparation outside the lock: a request to NetBox, its answer, or a field appearing there. */
    ghost method Elsewhere(f: P.Event)
      requires Valid() && (f.PostStep? || f.AnswerStep? || f.RemoteStep?)
      modifies this`preparation
      ensures Valid() && preparation == P.Step(old(preparation), f)
    {
      hide R.Inv, P.Inv;
      P.StepKeeps(preparation, f);
      preparation := P.Step(preparation, f);
    }

    /** `configure`: the endpoint and both tokens are replaced together, and READY is left. */
    method ConfigureEndpoint(p: Payload) returns (ok: bool)
      requires Valid()
      modifies this
      ensures Valid()
      ensures validation == R.Step(old(validation), R.ConfigureStep(p))
      ensures preparation == P.Step(old(preparation), P.ConfigureStep(p))
      ensures ok <==>
              && p.valid && p.revision == old(doc).revision
              && (old(doc).completed || old(doc).prep.Some? ==> p.creds.url == old(doc).creds.url)
              && (old(doc).creds.read != "" ==> p.replace)
              && old(doc).status != Validating && !Running?(old(doc))
      ensures ok ==>
                && doc.revision == old(doc).revision + 1 && doc.creds == p.creds && doc.prep == old(doc).prep
                && doc.completed == old(doc).completed && doc.status == Configured
      ensures !ok ==> doc == old(doc)
      ensures ok ==> RuntimeNetbox(doc).None?
    {
      hide R.Inv, P.Inv;
      ok := false;
      if !(!p.valid || p.revision != doc.revision)
         && !(doc.completed && p.creds.url != doc.creds.url)
         && !(doc.creds.read != "" && !p.replace)
         && !(doc.status == Validating || (doc.prep.Some? && doc.prep.value.status == Running))
         && !(doc.prep.Some? && p.creds.url != doc.creds.url) {
        doc := doc.(revision := doc.revision + 1);
        doc := doc.(status := Configured, creds := p.creds, validatedAt := 0);
        ok := true;
      }
      Record(R.ConfigureStep(p), P.ConfigureStep(p));
    }

    /**
     `validate`, first section. A new attempt opens exactly when none is open, no preparation runs, the last
     validation is not fresh and there are credentials; it is numbered apart from every earlier probe and
     starts with the stored credentials, which it keeps.
     */
    method Begin(revision: int, now: int, attempt: nat) returns (started: bool)
      requires Valid() && attempt == validation.nextAttempt
      modifies this
      ensures Valid()
      ensures validation == R.Step(old(validation), R.BeginStep(revision, now))
      ensures preparation == P.Step(old(preparation), P.BeginStep(revision, now, attempt))
      ensures started <==>
              && revision == old(doc).revision && old(doc).creds.read != ""
              && old(doc).status != Validating && !Running?(old(doc))
              && (old(doc).status == Validated ==> now - old(doc).validatedAt > 300)
      ensures started ==>
                && doc.status == Validating && doc.attempt == Some(attempt)
                && attempt !in old(validation).probes && attempt in validation.probes
                && validation.probes[attempt] == R.Probe(doc.revision, doc.creds, None)
      ensures doc.creds == old(doc).creds && doc.revision == old(doc).revision && doc.prep == old(doc).prep
      ensures started ==> RuntimeNetbox(doc).None?
      ensures !started ==> doc == old(doc)
    {
      hide P.Inv;
      started := false;
      if revision == doc.revision && !Running?(doc) {
        if doc.status != Validating && !(doc.status == Validated && now - doc.validatedAt <= 300) {
          if doc.creds.read != "" {
            doc := doc.(status := Validating, startedAt := now, attempt := Some(attempt));
            started := true;
          }
        }
      }
      Record(R.BeginStep(revision, now), P.BeginStep(revision, now, attempt));
    }

    /**
     `validate`, second section, with the answer of the probe that the first section started. VALIDATED is
     reached only by the current attempt, for the credentials its probe accepted.
     */
    method Publish(revision: nat, attempt: nat, r: ProbeResult, now: int)
      requires Valid() && attempt in validation.probes
      requires validation.probes[attempt].revision == revision && validation.probes[attempt].result.None?
      modifies this
      ensures Valid()
      ensures validation ==
              R.Step(R.Step(old(validation), R.AnswerStep(attempt, r)), R.PublishStep(attempt, now))
      ensures preparation == P.Step(old(preparation), P.PublishStep(revision, attempt, r, now))
      ensures doc.status == Validated && old(doc).status != Validated ==>
                && Accepts(r) && old(doc).attempt == Some(attempt)
                && old(validation).probes[attempt].creds == doc.creds == old(doc).creds
      ensures R.Superseded(old(validation), attempt) ==> doc == old(doc)
      ensures old(doc).revision == revision && old(doc).status == Validating && old(doc).attempt == Some(attempt) ==>
                var accepted := r.code.None? && r.checks.Some? && forall ok :: ok in r.checks.value ==> ok;
                && doc.status == (if accepted then Validated else Attention)
                && doc.validatedAt == (if accepted then now else 0)
                && doc.creds == old(doc).creds && doc.prep == old(doc).prep
    {
      hide P.Inv;
      R.StepKeeps(validation, R.AnswerStep(attempt, r));
      validation := R.Step(validation, R.AnswerStep(attempt, r));
      if doc.revision == revision && doc.status == Validating && doc.attempt == Some(attempt) {
        var code := r.code;
        if code.None? && (r.checks.None? || exists ok | ok in r.checks.value :: !ok) {
          code := Some("VALIDATION_UNAVAILABLE");
        }
        if code.None? {
          doc := doc.(status := Validated, validatedAt := now);
        } else {
          doc := doc.(status := Attention, validatedAt := 0);
        }
      }
      Record(R.PublishStep(attempt, now), P.PublishStep(revision, attempt, r, now));
    }

    /** `status`: two possible writes, the second seeing the first. A standing marker stays. */
    method Refresh(now: int)
      requires Valid()
      modifies this
      ensures Valid()
      ensures validation == R.Step(old(validation), R.StatusStep(now))
      ensures preparation == P.Step(old(preparation), P.StatusStep(now))
      ensures doc.creds == old(doc).creds && doc.revision == old(doc).revision
      ensures RuntimeNetbox(doc) == RuntimeNetbox(old(doc)) && P.Marker(doc) == P.Marker(old(doc))
      ensures doc.status == if old(doc).status == Validating && now - old(doc).startedAt > 60 then Attention
                            else old(doc).status
      ensures doc.prep == if Running?(old(doc)) && now - old(doc).prep.value.startedAt > 240
                          then Some(old(doc).prep.value.(status := PrepUncertain)) else old(doc).prep
    {
      hide R.Inv, P.Inv;
      if doc.status == Validating && now - doc.startedAt > 60 {
        doc := doc.(status := Attention);
      }
      if Running?(doc) && now - doc.prep.value.startedAt > 240 {
        doc := doc.(prep := Some(doc.prep.value.(status := PrepUncertain)));
      }
      Record(R.StatusStep(now), P.StatusStep(now));
    }

    /** `complete`: READY, and then some probe has accepted exactly the stored credentials. */
    method Complete(revision: int, now: int) returns (ok: bool)
      requires Valid()
      modifies this
      ensures Valid()
      ensures validation == R.Step(old(validation), R.FinishStep(revision, now))
      ensures preparation == P.Step(old(preparation), P.FinishStep(revision, now))
      ensures ok <==>
              && revision == old(doc).revision
              && (old(doc).status == Ready || (old(doc).status == Validated && now - old(doc).validatedAt <= 300))
      ensures ok ==> RuntimeNetbox(doc) == Some(old(doc).creds) && R.Proved(validation.probes, doc.creds)
      ensures ok ==> doc.revision == old(doc).revision && doc.prep == old(doc).prep
      ensures ok && old(doc).status == Validated ==> doc.completed
      ensures !ok ==> doc == old(doc)
    {
      hide P.Inv;
      ok := false;
      if revision == doc.revision {
        if doc.status == Ready {
          ok := true;
        } else if doc.status == Validated && now - doc.validatedAt <= 300 {
          doc := doc.(status := Ready, completed := true);
          ok := true;
        }
      }
      Record(R.FinishStep(revision, now), P.FinishStep(revision, now));
    }

    /** `runtime_netbox`: what is handed out is stored, and some probe accepted exactly it. */
    method HandOut() returns (creds: Option<Credentials>)
      requires Valid()
      ensures creds.Some? <==> doc.status == Ready
      ensures creds.Some? ==> creds.value == doc.creds && R.Proved(validation.probes, creds.value)
    {
      creds := if doc.status == Ready then Some(doc.creds) else None;
    }

    /** `plan`, first section and the inventory read after it. */
    method ReadPlan(revision: int, fields: seq<Field>) returns (ok: bool, ghost plan: nat)
      requires Valid() && P.Honest(fields, preparation.remote)
      modifies this`preparation
      ensures Valid() && preparation == P.Step(old(preparation), P.PlanReadStep(revision, fields))
      ensures ok <==> revision == doc.revision && !Busy(doc) && doc.creds.read != ""
      ensures ok ==> plan in preparation.plans && preparation.plans[plan] == (revision, fields)
    {
      hide R.Inv, P.Inv, P.Honest, P.Shown;
      P.StepKeeps(preparation, P.PlanReadStep(revision, fields));
      ok, plan := revision == doc.revision && !Busy(doc) && doc.creds.read != "", preparation.nextPlan;
      preparation := P.Step(preparation, P.PlanReadStep(revision, fields));
    }

    /** `plan`, second section: the marker is dropped only for a field the inventory read shows. */
    method ReplacePlan(ghost plan: nat, revision: int, fields: seq<Field>, now: int) returns (ok: bool)
      requires Valid() && plan in preparation.plans && preparation.plans[plan] == (revision, fields)
      modifies this
      ensures Valid()
      ensures validation == R.Step(old(validation), R.PlanStep(revision, fields, now))
      ensures preparation == P.Step(old(preparation), P.PlanPublishStep(plan, now))
      ensures ok <==> revision == old(doc).revision && !Busy(old(doc))
      ensures ok ==>
                && RuntimeNetbox(doc) == RuntimeNetbox(old(doc)) && P.Owner(doc) == None
                && (P.Marker(doc) == None || P.Marker(doc) == P.Marker(old(doc)))
                && (P.Marker(doc) == None && P.Marker(old(doc)).Some? ==>
                      P.Marker(old(doc)).value in preparation.seen)
                && (doc.prep.value.status == Planned <==> P.Marker(doc) == None)
                && (P.Marker(old(doc)).Some? && P.Marker(doc) == None <==>
                      exists f :: f in fields && Some(f.name) == P.Marker(old(doc)) && f.status != MissingField)
                && doc.prep.value.fields == fields && doc.prep.value.plannedAt == now
                && doc.prep.value.digest == Some(PlanDigest(doc.revision, doc.creds.url, fields))
                && doc.creds == old(doc).creds && doc.revision == old(doc).revision
      ensures !ok ==> doc == old(doc)
    {
      hide R.Inv;
      ok := false;
      if revision == doc.revision && doc.status != Validating && !Running?(doc) {
        var uncertain := if doc.prep.Some? then doc.prep.value.uncertain else None;
        if uncertain.Some? && Shows(fields, uncertain.value) {
          uncertain := None;
        }
        doc := doc.(prep := Some(Prep(if uncertain.Some? then PrepUncertain else Planned,
                                      Some(PlanDigest(doc.revision, doc.creds.url, fields)), now, uncertain,
                                      fields, None, 0)));
        ok := true;
      }
      Record(R.PlanStep(revision, fields, now), P.PlanPublishStep(plan, now));
    }

    /** `cancel`: a standing marker stays. */
    method CancelPlan(revision: int) returns (ok: bool)
      requires Valid()
      modifies this
      ensures Valid()
      ensures validation == R.Step(old(validation), R.CancelStep(revision))
      ensures preparation == P.Step(old(preparation), P.CancelStep(revision))
      ensures ok <==> revision == old(doc).revision && !Busy(old(doc))
      ensures P.Marker(doc) == P.Marker(old(doc)) && RuntimeNetbox(doc) == RuntimeNetbox(old(doc))
      ensures if ok then doc.prep.Some? && doc.prep.value.status == Cancelled else doc == old(doc)
    {
      hide R.Inv, P.Inv;
      ok := revision == doc.revision && doc.status != Validating && !Running?(doc);
      if ok {
        var setup := if doc.prep.Some? then doc.prep.value else Prep(Cancelled, None, 0, None, [], None, 0);
        doc := doc.(prep := Some(setup.(status := Cancelled)));
      }
      Record(R.CancelStep(revision), P.CancelStep(revision));
    }

    /**
     `_start`: a fresh, unmarked, confirmed plan of this revision becomes the running attempt. Whatever an
     earlier attempt may have created without knowing has been seen by then.
     */
    method StartAttempt(revision: int, digest: PlanDigest, confirmed: bool, now: int, run: nat) returns (ok: bool)
      requires Valid() && run == preparation.nextRun
      modifies this
      ensures Valid()
      ensures validation == R.Step(old(validation), R.StartStep(revision, digest, confirmed, now, run))
      ensures preparation == P.Step(old(preparation), P.StartStep(revision, digest, confirmed, now))
      ensures ok <==>
              && confirmed && revision == old(doc).revision && old(doc).status != Validating && old(doc).prep.Some?
              && old(doc).prep.value.status == Planned && old(doc).prep.value.digest == Some(digest)
              && now - old(doc).prep.value.plannedAt <= 300 && P.Marker(old(doc)) == None
              && (forall f :: f in old(doc).prep.value.fields ==> f.status != BlockedField)
      ensures ok ==>
                && Running?(doc) && doc.prep.value.startedAt == now
                && doc.prep.value.fields == old(doc).prep.value.fields
                && doc.creds == old(doc).creds && doc.revision == old(doc).revision
                && P.Owner(doc) == Some(run) && P.Marker(doc) == None && RuntimeNetbox(doc).None?
                && AllSeen(preparation)
      ensures !ok ==> doc == old(doc)
    {
      hide R.Inv, P.Inv, AllSeen;
      ok := false;
      if revision == doc.revision && doc.status != Validating && !Running?(doc) && doc.prep.Some? {
        var setup := doc.prep.value;
        if confirmed && setup.status == Planned && setup.digest == Some(digest) && now - setup.plannedAt <= 300
           && setup.uncertain.None? && !exists f :: f in setup.fields && f.status == BlockedField {
          UnmarkedIsSeen(preparation);
          setup := setup.(status := Running, runId := Some(run), startedAt := now);
          doc := doc.(prep := Some(setup));
          doc := doc.(status := Attention, validatedAt := 0);
          ok := true;
        }
      }
      Record(R.StartStep(revision, digest, confirmed, now, run), P.StartStep(revision, digest, confirmed, now));
      SameSeen(old(preparation), preparation);
    }

    /** `save`: a run changes the journal only while it owns it; `e` is the event of the run that saves. */
    method SaveUpdate(run: nat, u: Update, ghost e: P.Event) returns (ok: bool)
      requires Valid() && Saves(preparation, e, run, u)
      modifies this
      ensures Valid()
      ensures validation == R.Step(old(validation), R.SaveStep(run, u)) && preparation == P.Step(old(preparation), e)
      ensures ok <==> P.Owner(old(doc)) == Some(run)
      ensures ok && u.Mark? ==> P.Marker(doc) == Some(u.name) && (run, u.name) in preparation.marks
      ensures ok ==>
                && P.Owner(doc) == Some(run) && doc.creds == old(doc).creds && doc.status == old(doc).status
                && (P.Marker(doc) == match u
                                     case Mark(name) => Some(name)
                                     case Settle => None
                                     case StopClear(_) => None
                                     case _ => P.Marker(old(doc)))
                && (doc.prep.value.status == match u
                                             case Stop(status) => status
                                             case StopClear(status) => status
                                             case Complete(status, _) => status
                                             case _ => old(doc).prep.value.status)
                && doc.prep.value.fields == (if u.Complete? then u.fields else old(doc).prep.value.fields)
      ensures !ok ==> doc == old(doc) && P.PhaseOf(preparation, run).Over?
    {
      hide R.Inv, P.Inv;
      SavesIsSave(preparation, e, run, u);
      ok := doc.prep.Some? && doc.prep.value.runId == Some(run);
      if ok {
        var p := doc.prep.value;
        match u {
          case Mark(name) => p := p.(uncertain := Some(name));
          case Settle => p := p.(uncertain := None);
          case Stop(s) => p := p.(status := s);
          case StopClear(s) => p := p.(status := s, uncertain := None);
          case Complete(s, fields) => p := p.(status := s, fields := fields);
        }
        doc := doc.(prep := Some(p));
      }
      Record(R.SaveStep(run, u), e);
    }
  }
}
