/** The persisted bootstrap document and every locked section that replaces it. */
module BootstrapDocument {
  import opened Wrappers

  datatype Status = Fresh | Configured | Validating | Validated | Ready | Attention

  datatype Credentials = Credentials(url: string, read: string, apply: string)

  datatype FieldStatus = MissingField | ReadyField | BlockedField | OtherField

  datatype Field = Field(name: string, status: FieldStatus)

  /** The plan fingerprint, injective in what it covers. */
  datatype PlanDigest = PlanDigest(revision: nat, url: string, fields: seq<Field>)

  datatype PrepStatus =
    | Planned | Running | PrepUncertain | Cancelled | Stale | TokenRejected | Expired
    | RecheckRequired | PrepConflict | Waiting | Rejected | Prepared

  datatype Prep = Prep(
    status: PrepStatus, digest: Option<PlanDigest>, plannedAt: int, uncertain: Option<string>,
    fields: seq<Field>, runId: Option<nat>, startedAt: int)

  datatype Doc = Doc(
    revision: nat, status: Status, creds: Credentials, completed: bool,
    startedAt: int, attempt: Option<nat>, validatedAt: int, prep: Option<Prep>)

  const FRESH := Doc(0, Fresh, Credentials("", "", ""), false, 0, None, 0, None)

  predicate Running?(d: Doc) {
    d.prep.Some? && d.prep.value.status == Running
  }

  predicate Busy(d: Doc) {
    d.status == Validating || Running?(d)
  }

  // -------------------------------------------------------------- validation

  /** `valid` covers the URL and token syntax; `None` below is a refusal that leaves the document alone. */
  datatype Payload = Payload(valid: bool, revision: int, creds: Credentials, replace: bool)

  function Configure(d: Doc, p: Payload): Option<Doc> {
    if !p.valid || p.revision != d.revision then None
    else if d.completed && p.creds.url != d.creds.url then None
    else if d.creds.read != "" && !p.replace then None
    else if Busy(d) then None
    else if d.prep.Some? && p.creds.url != d.creds.url then None
    else Some(d.(revision := d.revision + 1, status := Configured, creds := p.creds, validatedAt := 0))
  }

  /** The first locked section of `validate`; `None` also covers a reply without a new attempt. */
  function BeginValidation(d: Doc, revision: int, now: int, attempt: nat): Option<Doc> {
    if revision != d.revision || Running?(d) then None
    else if d.status == Validating || (d.status == Validated && now - d.validatedAt <= 300) then None
    else if d.creds.read == "" then None
    else Some(d.(status := Validating, startedAt := now, attempt := Some(attempt)))
  }

  /** A probe result: its code, and the field checks when they are well formed. */
  datatype ProbeResult = ProbeResult(code: Option<string>, checks: Option<seq<bool>>)

  /** The probe itself accepted: no code and every well-formed field check ok. */
  predicate Accepts(r: ProbeResult) {
    r.code.None? && r.checks.Some? && forall ok :: ok in r.checks.value ==> ok
  }

  /** The second locked section of `validate`: only the current attempt publishes. */
  function PublishValidation(d: Doc, revision: int, attempt: nat, r: ProbeResult, now: int): Doc {
    if d.revision != revision || d.status != Validating || d.attempt != Some(attempt) then d
    else if Accepts(r) then d.(status := Validated, validatedAt := now)
    else d.(status := Attention, validatedAt := 0)
  }

  /** `status`: interrupted attempts are closed. */
  function Expire(d: Doc, now: int): Doc {
    var v := if d.status == Validating && now - d.startedAt > 60 then d.(status := Attention) else d;
    if Running?(v) && now - v.prep.value.startedAt > 240 then v.(prep := Some(v.prep.value.(status := PrepUncertain)))
      else v
  }

  function Finish(d: Doc, revision: int, now: int): Option<Doc> {
    if revision != d.revision then None
    else if d.status == Ready then Some(d)
    else if d.status != Validated || now - d.validatedAt > 300 then None
    else Some(d.(status := Ready, completed := true))
  }

  /** `runtime_netbox`: credentials are handed out only when READY. */
  function RuntimeNetbox(d: Doc): Option<Credentials> {
    if d.status == Ready then Some(d.creds) else None
  }

  // ------------------------------------------------------------- preparation

  predicate Shows(fields: seq<Field>, name: string) {
    exists f :: f in fields && f.name == name && f.status != MissingField
  }

  /** The publishing section of `plan`: an unresolved marker survives unless its field is no longer missing. */
  function PublishPlan(d: Doc, revision: int, fields: seq<Field>, now: int): Option<Doc> {
    if revision != d.revision || Busy(d) then None
    else
      var was := if d.prep.Some? then d.prep.value.uncertain else None;
      var uncertain := if was.Some? && Shows(fields, was.value) then None else was;
      Some(d.(prep := Some(Prep(if uncertain.Some? then PrepUncertain else Planned,
                                Some(PlanDigest(d.revision, d.creds.url, fields)), now, uncertain, fields, None, 0))))
  }

  function Cancel(d: Doc, revision: int): Option<Doc> {
    if revision != d.revision || Busy(d) then None
    else if d.prep.Some? then Some(d.(prep := Some(d.prep.value.(status := Cancelled))))
    else Some(d.(prep := Some(Prep(Cancelled, None, 0, None, [], None, 0))))
  }

  /** `_start`; `confirmed` covers the confirmation and the separation of the setup token. */
  function StartRun(d: Doc, revision: int, digest: PlanDigest, confirmed: bool, now: int, run: nat): Option<Doc> {
    if revision != d.revision || Busy(d) || !confirmed || d.prep.None? then None
    else
      var p := d.prep.value;
      if p.status != Planned || p.digest != Some(digest) || now - p.plannedAt > 300 || p.uncertain.Some? then None
      else if exists f :: f in p.fields && f.status == BlockedField then None
      else Some(d.(status := Attention, validatedAt := 0,
        prep := Some(p.(status := Running, runId := Some(run), startedAt := now))))
  }

  datatype Update =
    | Mark(name: string)              // the durable marker before a POST
    | Settle                          // a known outcome clears it
    | Stop(status: PrepStatus)        // the marker stays as it is
    | StopClear(status: PrepStatus)   // nothing was sent, or it was refused
    | Complete(status: PrepStatus, fields: seq<Field>)

  /** `save`: only the run that owns the journal may change it. */
  function Save(d: Doc, run: nat, u: Update): Option<Doc> {
    if d.prep.None? || d.prep.value.runId != Some(run) then None
    else
      var p := d.prep.value;
      Some(d.(prep := Some(
        match u
        case Mark(name) => p.(uncertain := Some(name))
        case Settle => p.(uncertain := None)
        case Stop(s) => p.(status := s)
        case StopClear(s) => p.(status := s, uncertain := None)
        case Complete(s, fields) => p.(status := s, fields := fields))))
  }

  /** The document a locked section leaves behind. */
  function Or(d: Doc, o: Option<Doc>): Doc {
    if o.Some? then o.value else d
  }
}
