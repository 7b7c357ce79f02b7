/**
 A confirmed apply across a child process that may raise, die, stall or answer badly:
 how its outcome is classified, and how a confirmation token is spent.
 */
module ApplyOutcome {
  import opened Wrappers
  import opened Collections

  datatype Code =
    | PlanStale | PlanBlocked | FailedBeforeWrite | OutcomeUncertain | ApplyFailed | ApplyLocked
    | SourceUnsupported | SourceUnavailable | ConfirmationRefused

  datatype Plan = Plan(digest: string, allowed: bool, changes: bool)

  // ------------------------------------------------------------------- child

  /** What happens at one point of the child: it goes on, raises, or the process dies. */
  datatype Fate = Goes | Raises | Dies

  datatype Reply = Result(digest: string) | Error(code: Code)

  datatype Outcome = Died | Replied(reply: Reply)

  /** How many of the first `n` points of the child pass. */
  function Progress(fate: nat -> Fate, n: nat): (p: nat)
    ensures p <= n && (forall i :: 0 <= i < p ==> fate(i) == Goes) && (p < n ==> fate(p) != Goes)
  {
    if n == 0 then 0
    else
      var p := Progress(fate, n - 1);
      if p < n - 1 || fate(p) != Goes then p else n
  }

  /** The API calls of all the write stages together. */
  function Total(calls: seq<nat>): nat {
    if calls == [] then 0 else Total(calls[..|calls| - 1]) + calls[|calls| - 1]
  }

  lemma {:induction false} TotalOfPrefix(calls: seq<nat>, k: nat)
    requires k <= |calls|
    ensures Total(calls[..k]) <= Total(calls)
    ensures k < |calls| ==> Total(calls[..k]) + calls[k] <= Total(calls)
  {
    if k == |calls| {
      assert calls[..k] == calls;
    } else {
      var init := calls[..|calls| - 1];
      assert calls[..k] == init[..k];
      TotalOfPrefix(init, k);
    }
  }

  /**
   What a child did and said: the stages it simulated, whether it entered the write phase, and how many of
   its API calls there returned. A call that does not return may still have reached NetBox.
   */
  datatype Doing = Doing(outcome: Outcome, simulated: nat, entered: bool, returned: nat)

  /**
   The points in order: discovery and planning, the write client, each simulated stage, the disappearance
   report, the boundary, each API call of each write stage, and building the result.
   */
  function Points(calls: seq<nat>): nat {
    |calls| + Total(calls) + 5
  }

  function Upto(x: int, limit: nat): nat {
    if x <= 0 then 0 else if x <= limit then x else limit
  }

  /** What `child_main` prints when point `p` is the first to raise. */
  function RaisedAt(p: nat, calls: seq<nat>): Code {
    if |calls| + 3 <= p < Points(calls) - 1 then OutcomeUncertain else FailedBeforeWrite
  }

  /** `execute_child` for an apply, with the reply `child_main` prints, as a function of the first failing point. */
  function ChildRun(fate: nat -> Fate, plan: Plan, expected: string, supported: bool, calls: seq<nat>): Doing {
    if fate(0) == Dies then Doing(Died, 0, false, 0)
    else if fate(0) == Raises then Doing(Replied(Error(FailedBeforeWrite)), 0, false, 0)
    else if !supported then Doing(Replied(Error(SourceUnsupported)), 0, false, 0)
    else if !plan.allowed || plan.digest != expected then Doing(Replied(Error(PlanStale)), 0, false, 0)
    else if !plan.changes then Doing(Replied(Error(PlanBlocked)), 0, false, 0)
    else
      var p := Progress(fate, Points(calls));
      var outcome :=
        if p == Points(calls) then Replied(Result(plan.digest))
        else if fate(p) == Dies then Died
        else Replied(Error(RaisedAt(p, calls)));
      Doing(outcome, Upto(p - 2, |calls|), p >= |calls| + 4, Upto(p - |calls| - 4, Total(calls)))
  }

  /** Every failure point of one child is numbered by `clock`; `fate` decides each. */
  class ApplyChild {
    const fate: nat -> Fate
    var clock: nat
    var simulated: nat
    var writeStarted: bool
    var entered: bool
    var returned: nat

    ghost predicate Untouched()
      reads this
    {
      clock == 0 && simulated == 0 && !writeStarted && !entered && returned == 0
    }

    constructor (fate: nat -> Fate)
      ensures this.fate == fate && Untouched()
    {
      this.fate := fate;
      clock, simulated, writeStarted, entered, returned := 0, 0, false, false, 0;
    }

    method Tick() returns (f: Fate)
      modifies this`clock
      ensures f == fate(old(clock)) && clock == old(clock) + 1
    {
      f := fate(clock);
      clock := clock + 1;
    }

    /** The loop that runs every stage on the planning client. */
    method SimulateStages(stages: nat) returns (f: Fate)
      modifies this`clock, this`simulated
      ensures var done := simulated - old(simulated);
              && 0 <= done <= stages
              && (forall i :: old(clock) <= i < old(clock) + done ==> fate(i) == Goes)
              && (if done == stages then f == Goes && clock == old(clock) + stages
                  else f == fate(old(clock) + done) && f != Goes)
    {
      for i := 0 to stages
        invariant clock == old(clock) + i && simulated == old(simulated) + i
        invariant forall j :: old(clock) <= j < clock ==> fate(j) == Goes
      {
        f := Tick();
        if f != Goes {
          return;
        }
        simulated := simulated + 1;
      }
      f := Goes;
    }

    /** The loop that runs every stage on the real client. A failing call leaves the calls before it done. */
    method WriteStages(calls: seq<nat>) returns (f: Fate)
      modifies this`clock, this`entered, this`returned
      ensures entered
      ensures var done := returned - old(returned);
              && 0 <= done <= Total(calls)
              && (forall i :: old(clock) <= i < old(clock) + done ==> fate(i) == Goes)
              && (if done == Total(calls) then f == Goes && clock == old(clock) + done
                  else f == fate(old(clock) + done) && f != Goes)
    {
      entered := true;
      for k := 0 to |calls|
        invariant entered && clock == old(clock) + Total(calls[..k]) && returned == old(returned) + Total(calls[..k])
        invariant forall j :: old(clock) <= j < clock ==> fate(j) == Goes
      {
        TotalOfPrefix(calls, k);
        for i := 0 to calls[k]
          invariant entered && clock == old(clock) + Total(calls[..k]) + i
          invariant returned == old(returned) + Total(calls[..k]) + i
          invariant forall j :: old(clock) <= j < clock ==> fate(j) == Goes
        {
          f := Tick();
          if f != Goes {
            return;
          }
          returned := returned + 1;
        }
        assert calls[..k + 1][..k] == calls[..k];
      }
      assert calls[..|calls|] == calls;
      f := Goes;
    }

    /** `apply_full_sync` and the ESXi executor: simulate every stage, cross the boundary, then write every stage. */
    method ApplyStages(calls: seq<nat>) returns (f: Fate, ghost p: nat)
      requires clock == 2 && simulated == 0 && !writeStarted && !entered && returned == 0
      modifies this`clock, this`simulated, this`writeStarted, this`entered, this`returned
      ensures 2 <= p <= Points(calls) - 1 && (forall i :: 2 <= i < p ==> fate(i) == Goes)
      ensures if p < Points(calls) - 1 then f == fate(p) && f != Goes else f == Goes && clock == p
      ensures simulated == Upto(p - 2, |calls|) && returned == Upto(p - |calls| - 4, Total(calls))
      ensures writeStarted <==> p >= |calls| + 3
      ensures entered <==> p >= |calls| + 4
    {
      f := SimulateStages(|calls|);
      p := simulated + 2;
      if f != Goes {
        return;
      }
      f := Tick();  // the disappearance report reads NetBox
      if f != Goes {
        return;
      }
      writeStarted := true;
      f := Tick();  // announcing the boundary
      p := |calls| + 3;
      if f != Goes {
        return;
      }
      f := WriteStages(calls);
      p := |calls| + 4 + returned;
    }

    /** `execute_child` and `child_main`. */
    method Execute(plan: Plan, expected: string, supported: bool, calls: seq<nat>) returns (r: Outcome)
      requires Untouched()
      modifies this`clock, this`simulated, this`writeStarted, this`entered, this`returned
      ensures Doing(r, simulated, entered, returned) == ChildRun(fate, plan, expected, supported, calls)
    {
      var f := Tick();  // provider discovery and planning
      if f == Dies {
        return Died;
      }
      if f == Raises {
        return Replied(Error(FailedBeforeWrite));
      }
      if !supported {
        return Replied(Error(SourceUnsupported));
      }
      if !plan.allowed || plan.digest != expected {
        return Replied(Error(PlanStale));
      }
      if !plan.changes {
        return Replied(Error(PlanBlocked));
      }
      f := Tick();  // the client for guarded creation
      if f != Goes {
        ProgressIs(fate, Points(calls), 1);
        return if f == Dies then Died else Replied(Error(FailedBeforeWrite));
      }
      ghost var p;
      f, p := ApplyStages(calls);
      if f != Goes {
        ProgressIs(fate, Points(calls), p);
        return if f == Dies then Died else Replied(Error(if writeStarted then OutcomeUncertain else FailedBeforeWrite));
      }
      f := Tick();  // building the result, outside the handler that classifies a raising executor
      if f != Goes {
        ProgressIs(fate, Points(calls), p);
        return if f == Dies then Died else Replied(Error(FailedBeforeWrite));
      }
      ProgressIs(fate, Points(calls), Points(calls));
      r := Replied(Result(plan.digest));
    }
  }

  lemma ProgressIs(fate: nat -> Fate, n: nat, p: nat)
    requires p <= n && (forall i :: 0 <= i < p ==> fate(i) == Goes) && (p < n ==> fate(p) != Goes)
    ensures Progress(fate, n) == p
  {
  }

  // -------------------------------------------------------------- supervisor

  /** How the answer travels back; everything but `Intact` loses it. */
  datatype Transport = Intact | TimedOut | Oversized | Garbled | ForeignShape

  datatype Received = Value(digest: string) | Failed(code: Code)

  const FORWARDED: set<Code> :=
    {PlanStale, PlanBlocked, FailedBeforeWrite, OutcomeUncertain, ApplyFailed, SourceUnsupported}

  /** `_child`: an apply whose answer is lost is uncertain, a plan that is lost wrote nothing. */
  function Receive(planning: bool, o: Outcome, t: Transport): Received {
    var lost := if planning then FailedBeforeWrite else OutcomeUncertain;
    if t != Intact || o.Died? then Failed(lost)
    else match o.reply
      case Error(code) => Failed(if code in FORWARDED then code else ApplyFailed)
      case Result(digest) => Value(digest)
  }

  datatype Claims = Claims(inst: string, sourceId: string, digest: string, actor: string)

  datatype Entry = Entry(claims: Claims, expires: int)

  /** What the server answers; `InternalError` is an exception that left `apply` unclassified. */
  datatype Report = Succeeded(digest: string) | Refused(code: Code) | InternalError

  /**
   The bookkeeping around the child: whether there is a run repository, whether the review guard commits,
   whether the action counts parse, and whether `finish_run` succeeds on the success path and in a handler.
   */
  datatype Books = Books(
    repository: bool, guardReleased: bool, countsValid: bool, firstFinish: bool, handlerFinish: bool)

  /** Everything that happens to one launched child and around it. */
  datatype Job = Job(
    fate: nat -> Fate, plan: Plan, supported: bool, calls: seq<nat>, transport: Transport, books: Books)

  /** Who asks for an apply, for which source, and when. */
  datatype Caller = Caller(inst: string, actor: string, now: int)

  /** A launched child, with the token and claims it was launched for and the request that launched it. */
  datatype Launch = Launch(token: nat, claims: Claims, caller: Caller, job: Job)

  const CAPACITY := 256
  const LIFETIME := 300

  /** Tokens are fresh: numbered in the order they are issued, each with its claims and expiry. */
  datatype Tokens = Tokens(entries: map<nat, Entry>, issued: seq<Entry>, launched: seq<Launch>)

  function Prune(entries: map<nat, Entry>, now: int): map<nat, Entry> {
    map t | t in entries && entries[t].expires > now :: entries[t]
  }

  function Issue(s: Tokens, c: Claims, now: int): Tokens {
    var live := Prune(s.entries, now);
    if |live| >= CAPACITY then s.(entries := live)
    else
      var entry := Entry(c, now + LIFETIME);
      Tokens(live[|s.issued| := entry], s.issued + [entry], s.launched)
  }

  /** `consume`: the entry is removed before anything about it is checked. */
  function Consume(s: Tokens, token: nat): Tokens {
    s.(entries := s.entries - {token})
  }

  predicate Admits(s: Tokens, token: nat, caller: Caller) {
    && token in s.entries
    && s.entries[token].expires > caller.now
    && s.entries[token].claims.inst == caller.inst
    && s.entries[token].claims.actor == caller.actor
  }

  /**
   What the surroundings of `apply` answer before the child starts, in the order they are asked; `None` is a
   check that passes. The first two come before the token is looked at.
   */
  datatype Gate = Gate(
    lookup: Option<Code>, recorded: bool,
    lock: Option<Code>, guard: Option<Code>, used: Option<Code>, reload: Option<Code>, sourceId: string,
    bind: Option<Code>, payload: Option<Code>)

  /** The request gets as far as consuming its token. */
  predicate Reaches(g: Gate) {
    g.lookup.None? && g.recorded
  }

  /** The first refusal after a token was admitted, if any. */
  function GateCode(g: Gate, c: Claims): Option<Code> {
    if g.lock.Some? then g.lock
    else if g.guard.Some? then g.guard
    else if g.used.Some? then g.used
    else if g.reload.Some? then g.reload
    else if g.sourceId != c.sourceId then Some(PlanStale)
    else if g.bind.Some? then g.bind
    else g.payload
  }

  /** The checks in order, each with the code it refuses with; a changed source is a stale plan. */
  function Checks(g: Gate, c: Claims): seq<Option<Code>> {
    [g.lock, g.guard, g.used, g.reload, if g.sourceId == c.sourceId then None else Some(PlanStale), g.bind, g.payload]
  }

  /** The first check that fails refuses with its code. */
  predicate Refuses(g: Gate, c: Claims, code: Code) {
    exists i :: 0 <= i < 7 && Checks(g, c)[i] == Some(code) && forall j :: 0 <= j < i ==> Checks(g, c)[j].None?
  }

  lemma RefusesIs(g: Gate, c: Claims)
    ensures forall code :: Refuses(g, c, code) <==> GateCode(g, c) == Some(code)
  {
    forall code
      ensures Refuses(g, c, code) <==> GateCode(g, c) == Some(code)
    {
      var all := Checks(g, c);
      assert |all| == 7;
      if GateCode(g, c) == Some(code) {
        var i := if all[0].Some? then 0 else if all[1].Some? then 1 else if all[2].Some? then 2
                 else if all[3].Some? then 3 else if all[4].Some? then 4 else if all[5].Some? then 5 else 6;
        assert all[i] == Some(code) && forall j :: 0 <= j < i ==> all[j].None?;
      }
      if i :| 0 <= i < 7 && all[i] == Some(code) && forall j :: 0 <= j < i ==> all[j].None? {
        assert i > 0 ==> all[0].None?;
        assert i > 1 ==> all[1].None?;
        assert i > 2 ==> all[2].None?;
        assert i > 3 ==> all[3].None?;
        assert i > 4 ==> all[4].None?;
        assert i > 5 ==> all[5].None?;
      }
    }
  }

  /** One prepared token or one apply request. */
  datatype Event =
    | IssueEvent(claims: Claims, now: int)
    | ApplyEvent(token: nat, caller: Caller, gate: Gate, job: Job)

  predicate Launches(s: Tokens, e: Event)
    requires e.ApplyEvent?
  {
    && Reaches(e.gate)
    && Admits(s, e.token, e.caller)
    && GateCode(e.gate, s.entries[e.token].claims).None?
  }

  function Step(s: Tokens, e: Event): Tokens {
    match e
    case IssueEvent(c, now) => Issue(s, c, now)
    case ApplyEvent(token, caller, gate, job) =>
      if !Reaches(gate) then s
      else
        var after := Consume(s, token);
        if Launches(s, e)
        then after.(launched := after.launched + [Launch(token, s.entries[token].claims, caller, job)])
        else after
  }

  function Run(events: seq<Event>): Tokens {
    if events == [] then Tokens(map[], [], []) else Step(Run(events[..|events| - 1]), events[|events| - 1])
  }

  /** The launch used an issued token before it expired, as the actor and for the source it was issued to. */
  predicate Entitled(s: Tokens, l: Launch) {
    && l.token < |s.issued| && l.claims == s.issued[l.token].claims
    && l.caller.now < s.issued[l.token].expires
    && l.caller.actor == l.claims.actor && l.caller.inst == l.claims.inst
  }

  ghost predicate Spent(s: Tokens) {
    && (forall t :: t in s.entries ==> t < |s.issued| && s.entries[t] == s.issued[t])
    && (forall i :: 0 <= i < |s.launched| ==> Entitled(s, s.launched[i]) && s.launched[i].token !in s.entries)
    && (forall i, j :: 0 <= i < j < |s.launched| ==> s.launched[i].token != s.launched[j].token)
  }

  lemma StepSpends(s: Tokens, e: Event)
    requires Spent(s)
    ensures Spent(Step(s, e))
  {
    hide GateCode, Reaches;
  }

  /** Over any run, no token launches two children, and each child runs for the claims its token was issued for. */
  lemma {:induction false} EachTokenLaunchesOnce(events: seq<Event>)
    ensures Spent(Run(events))
  {
    if events != [] {
      EachTokenLaunchesOnce(events[..|events| - 1]);
      StepSpends(Run(events[..|events| - 1]), events[|events| - 1]);
    }
  }

  /** A request that gets as far as its token spends it whatever it then decides; an earlier refusal keeps it. */
  lemma ConsumedEvenIfRefused(s: Tokens, e: Event)
    requires e.ApplyEvent?
    ensures e.token in Step(s, e).entries <==> e.token in s.entries && !Reaches(e.gate)
    ensures forall t :: t in s.entries && (t != e.token || !Reaches(e.gate)) ==>
              t in Step(s, e).entries && Step(s, e).entries[t] == s.entries[t]
  {
  }

  /** Both handlers of `apply` record the failure before re-raising; a raise inside a handler is not classified. */
  function Handled(b: Books, code: Code): Report {
    if b.repository && !b.handlerFinish then InternalError else Refused(code)
  }

  /** What `apply` reports once a child was launched. */
  function ReportOf(c: Claims, o: Outcome, t: Transport, b: Books): Report {
    match Receive(false, o, t)
    case Failed(code) => Handled(b, code)
    case Value(digest) =>
      if digest != c.digest || !b.guardReleased || !b.countsValid then Handled(b, OutcomeUncertain)
      else if b.repository && !b.firstFinish then Handled(b, OutcomeUncertain)
      else Succeeded(digest)
  }

  function ChildOf(l: Launch): Doing {
    ChildRun(l.job.fate, l.job.plan, l.claims.digest, l.job.supported, l.job.calls)
  }

  /** The report of the request that launched the child. */
  function LaunchReport(l: Launch): Report {
    ReportOf(l.claims, ChildOf(l).outcome, l.job.transport, l.job.books)
  }

  /** The child reached building its result, that raised, and its answer arrived. */
  predicate ResultLost(j: Job) {
    var last := Points(j.calls) - 1;
    (forall i :: 0 <= i < last ==> j.fate(i) == Goes) && j.fate(last) == Raises && j.transport == Intact
  }

  /** Nothing failed up to the success-path `finish_run`. */
  predicate AllWell(j: Job) {
    && (forall i :: 0 <= i < Points(j.calls) ==> j.fate(i) == Goes)
    && j.transport == Intact && j.books.guardReleased && j.books.countsValid
  }

  /** There is no run repository, or the last `finish_run` that was tried succeeded. */
  predicate RunRecorded(j: Job) {
    !j.books.repository || j.books.handlerFinish || (AllWell(j) && j.books.firstFinish)
  }

  /**
   Outcome soundness, for every failure point of the child, every way its answer is lost and every
   bookkeeping failure. Once the write phase was entered, so that NetBox may hold anything from a part of the
   first stage to all of the plan, every stage was simulated from the confirmed plan, and the report is
   SUCCEEDED with the token's digest or OUTCOME_UNCERTAIN exactly when the child did not fail while building
   its result and the run could be recorded.
   */
  predicate Sound(l: Launch) {
    ChildOf(l).entered ==>
      && l.job.plan == Plan(l.claims.digest, true, true)
      && ChildOf(l).simulated == |l.job.calls|
      && (LaunchReport(l) in {Succeeded(l.claims.digest), Refused(OutcomeUncertain)} <==>
          !ResultLost(l.job) && RunRecorded(l.job))
      && (ResultLost(l.job) ==> LaunchReport(l) == Handled(l.job.books, FailedBeforeWrite))
      && (!RunRecorded(l.job) ==> LaunchReport(l) == InternalError)
  }

  lemma WrittenIsNeverDenied(l: Launch)
    ensures Sound(l)
  {
  }

  /**
   Over any run of prepare and apply requests, with any children and any failures: every launched child had a
   token of its own, used before its expiry by the actor and for the source it was issued to, ran for the claims
   of that token, and was reported soundly.
   */
  lemma EveryRunReportsSoundly(events: seq<Event>, l: Launch)
    requires l in Run(events).launched
    ensures Entitled(Run(events), l) && Sound(l)
    ensures multiset(Run(events).launched)[l] == 1
  {
    hide Run, Sound, Entitled;
    EachTokenLaunchesOnce(events);
    WrittenIsNeverDenied(l);
    var launched := Run(events).launched;
    var i :| 0 <= i < |launched| && launched[i] == l;
    assert launched == launched[..i] + [l] + launched[i + 1..];
    assert l !in launched[..i] && l !in launched[i + 1..];
  }

  /** Every call of every stage returned, and yet the report is FAILED_BEFORE_WRITE: the result could not be built. */
  lemma WrittenReportedAsNotWritten(token: nat, c: Claims, caller: Caller, calls: seq<nat>, b: Books)
    requires b.handlerFinish
    ensures var fate := (i: nat) => if i == Points(calls) - 1 then Raises else Goes;
            var l := Launch(token, c, caller, Job(fate, Plan(c.digest, true, true), true, calls, Intact, b));
            ChildOf(l).returned == Total(calls) && LaunchReport(l) == Refused(FailedBeforeWrite)
  {
    var fate := (i: nat) => if i == Points(calls) - 1 then Raises else Goes;
    ProgressIs(fate, Points(calls), Points(calls) - 1);
  }

  /** Everything was written and answered, but the run database is down: the report is the unclassified error. */
  lemma WrittenReportedAsInternalError(token: nat, c: Claims, caller: Caller, calls: seq<nat>)
    ensures var books := Books(true, true, true, false, false);
            var job := Job((i: nat) => Goes, Plan(c.digest, true, true), true, calls, Intact, books);
            var l := Launch(token, c, caller, job);
            ChildOf(l).returned == Total(calls) && LaunchReport(l) == InternalError
  {
    ProgressIs((i: nat) => Goes, Points(calls), Points(calls));
  }

  /** SUCCEEDED if and only if nothing failed anywhere; then every call of every stage returned. */
  lemma SucceededMeansAllWritten(l: Launch)
    ensures LaunchReport(l).Succeeded? <==>
            && l.job.supported && l.job.plan == Plan(l.claims.digest, true, true)
            && AllWell(l.job) && (l.job.books.repository ==> l.job.books.firstFinish)
    ensures LaunchReport(l).Succeeded? ==> ChildOf(l).returned == Total(l.job.calls)
  {
  }

  /** A refusal other than OUTCOME_UNCERTAIN is the truth about NetBox unless the child failed building its result. */
  lemma RefusedMeansUntouched(l: Launch)
    requires LaunchReport(l).Refused? && LaunchReport(l).code != OutcomeUncertain
    ensures ChildOf(l).entered <==>
            l.job.supported && l.job.plan == Plan(l.claims.digest, true, true) && ResultLost(l.job)
  {
    if ChildOf(l).entered {
      WrittenIsNeverDenied(l);
    } else if ResultLost(l.job) {
      ProgressIs(l.job.fate, Points(l.job.calls), Points(l.job.calls) - 1);
    }
  }

  /** What the child says when it stops before the write boundary, in the order it looks. */
  function EarlyCode(l: Launch): Code {
    if l.job.fate(0) == Raises then FailedBeforeWrite
    else if !l.job.supported then SourceUnsupported
    else if !l.job.plan.allowed || l.job.plan.digest != l.claims.digest then PlanStale
    else if !l.job.plan.changes then PlanBlocked
    else FailedBeforeWrite
  }

  /** Some point up to the boundary stops the child, or the plan does. */
  predicate StopsEarly(l: Launch) {
    || l.job.fate(0) != Goes || !l.job.supported || l.job.plan != Plan(l.claims.digest, true, true)
    || exists i :: 0 <= i < |l.job.calls| + 3 && l.job.fate(i) != Goes
  }

  /** A child that stops before the boundary, with its answer intact, is refused with its own code. */
  lemma EarlyRefusalIsExact(l: Launch)
    requires StopsEarly(l) && l.job.transport == Intact && !ChildOf(l).outcome.Died?
    ensures LaunchReport(l) == Handled(l.job.books, EarlyCode(l)) && !ChildOf(l).entered
  {
  }

  /** The confirmed plan is still what the source offers. */
  predicate Confirmed(l: Launch) {
    l.job.supported && l.job.plan == Plan(l.claims.digest, true, true)
  }

  /** The first point of the child that does not pass. */
  predicate StopsAt(l: Launch, p: nat) {
    p < Points(l.job.calls) && l.job.fate(p) != Goes && forall i :: 0 <= i < p ==> l.job.fate(i) == Goes
  }

  /** A lost answer is uncertain, wherever the child was; so is a child that died before it read the plan. */
  lemma LostAnswerIsUncertain(l: Launch)
    requires l.job.transport != Intact || l.job.fate(0) == Dies
    ensures LaunchReport(l) == Handled(l.job.books, OutcomeUncertain)
  {
  }

  /**
   The report of a child that stops on the confirmed plan, by the point where it stops: uncertain when the
   process died or an exception came between the boundary and the last write, and otherwise failed before a write.
   */
  lemma StoppedReportIs(l: Launch, p: nat)
    requires Confirmed(l) && StopsAt(l, p) && l.job.transport == Intact
    ensures LaunchReport(l) ==
              Handled(l.job.books, if l.job.fate(p) == Dies || |l.job.calls| + 3 <= p < Points(l.job.calls) - 1
                                   then OutcomeUncertain else FailedBeforeWrite)
    ensures ChildOf(l).entered <==> p > |l.job.calls| + 3
  {
    ProgressIs(l.job.fate, Points(l.job.calls), p);
  }

  /** The report of a child that passes every point and answers. */
  lemma CompletedReportIs(l: Launch)
    requires Confirmed(l) && (forall p :: 0 <= p < Points(l.job.calls) ==> l.job.fate(p) == Goes)
    requires l.job.transport == Intact
    ensures var b := l.job.books;
            LaunchReport(l) ==
              if b.guardReleased && b.countsValid && (b.repository ==> b.firstFinish) then Succeeded(l.claims.digest)
              else Handled(b, OutcomeUncertain)
  {
    ProgressIs(l.job.fate, Points(l.job.calls), Points(l.job.calls));
  }

  /** A plan that is lost wrote nothing; an answer that arrives counts as it is, unless its code is not a child's. */
  lemma AnswersArrive(planning: bool, o: Outcome, t: Transport)
    ensures t != Intact || o.Died? ==> Receive(true, o, t) == Failed(FailedBeforeWrite)
    ensures t == Intact && o.Replied? && o.reply.Result? ==> Receive(planning, o, t) == Value(o.reply.digest)
    ensures t == Intact && o.Replied? && o.reply.Error? ==>
              Receive(planning, o, t) ==
                Failed(if o.reply.code in {ApplyLocked, SourceUnavailable, ConfirmationRefused} then ApplyFailed
                       else o.reply.code)
  {
    if o.Replied? && o.reply.Error? {
      assert o.reply.code !in FORWARDED <==> o.reply.code in {ApplyLocked, SourceUnavailable, ConfirmationRefused} by {
        match o.reply.code {
          case PlanStale =>
          case PlanBlocked =>
          case FailedBeforeWrite =>
          case OutcomeUncertain =>
          case ApplyFailed =>
          case ApplyLocked =>
          case SourceUnsupported =>
          case SourceUnavailable =>
          case ConfirmationRefused =>
        }
      }
    }
  }

  class ApplySupervisor {
    var entries: map<nat, Entry>
    var issued: seq<Entry>
    var launched: seq<Launch>

    ghost function Current(): Tokens
      reads this
    {
      Tokens(entries, issued, launched)
    }

    constructor ()
      ensures Current() == Run([])
    {
      entries, issued, launched := map[], [], [];
    }

    /** `issue` at the end of `prepare`. */
    method Prepare(c: Claims, now: int) returns (token: Option<nat>)
      requires Spent(Current())
      modifies this
      ensures Spent(Current()) && Current() == Step(old(Current()), IssueEvent(c, now))
      ensures token.Some? <==> |set t | t in old(entries) && now < old(entries)[t].expires| < 256
      ensures forall t :: t in entries && token != Some(t) ==>
                t in old(entries) && entries[t] == old(entries)[t] && now < entries[t].expires
      ensures forall t :: t in old(entries) && now < old(entries)[t].expires ==> t in entries
      ensures token.Some? ==>
                && token.value !in old(entries) && (forall l :: l in launched ==> l.token != token.value)
                && token.value in entries && entries[token.value] == Entry(c, now + 300)
      ensures |entries| <= CAPACITY || |entries| <= |old(entries)|
    {
      StepSpends(Current(), IssueEvent(c, now));
      PruneShrinks(entries, now);
      assert Prune(entries, now).Keys == set t | t in entries && now < entries[t].expires;
      entries := Prune(entries, now);
      if |entries| >= CAPACITY {
        return None;
      }
      token := Some(|issued|);
      entries := entries[|issued| := Entry(c, now + LIFETIME)];
      issued := issued + [Entry(c, now + LIFETIME)];
    }

    /**
     `apply`: look up the source, record the run, consume, check, launch one child, classify. Without a launch
     the child is not touched; with one the report is the classification above.
     */
    method Apply(token: nat, caller: Caller, gate: Gate, child: ApplyChild, job: Job) returns (report: Report)
      requires Spent(Current()) && child.Untouched() && child.fate == job.fate
      modifies this, child
      ensures Spent(Current()) && Current() == Step(old(Current()), ApplyEvent(token, caller, gate, job))
      ensures if Launches(old(Current()), ApplyEvent(token, caller, gate, job)) then
                var l := Launch(token, old(entries)[token].claims, caller, job);
                && launched == old(launched) + [l] && report == LaunchReport(l) && Sound(l)
                && child.entered == ChildOf(l).entered && child.returned == ChildOf(l).returned
              else
                launched == old(launched) && !report.Succeeded? && child.Untouched()
      ensures gate.lookup.Some? ==> report == Refused(gate.lookup.value)
      ensures gate.lookup.None? && !gate.recorded ==> report == InternalError
      ensures gate.lookup.Some? || !gate.recorded ==> entries == old(entries)
      ensures Reaches(gate) ==> entries == old(entries) - {token}
      ensures Reaches(gate)
              && (token in old(entries) ==>
                    || old(entries)[token].expires <= caller.now
                    || old(entries)[token].claims.inst != caller.inst
                    || old(entries)[token].claims.actor != caller.actor) ==>
                report == Handled(job.books, ConfirmationRefused)
      ensures Reaches(gate) && Admits(old(Current()), token, caller) ==>
                forall code :: Refuses(gate, old(entries)[token].claims, code) ==> report == Handled(job.books, code)
    {
      StepSpends(Current(), ApplyEvent(token, caller, gate, job));
      if gate.lookup.Some? {
        return Refused(gate.lookup.value);
      }
      if !gate.recorded {
        return InternalError;
      }
      var books := job.books;
      var entry := if token in entries then Some(entries[token]) else None;
      entries := entries - {token};
      if entry.None? || entry.value.expires <= caller.now || entry.value.claims.inst != caller.inst
         || entry.value.claims.actor != caller.actor {
        return Handled(books, ConfirmationRefused);
      }
      var claims := entry.value.claims;
      RefusesIs(gate, claims);
      var refusal := GateCode(gate, claims);
      if refusal.Some? {
        return Handled(books, refusal.value);
      }
      launched := launched + [Launch(token, claims, caller, job)];
      WrittenIsNeverDenied(Launch(token, claims, caller, job));
      var outcome := child.Execute(job.plan, claims.digest, job.supported, job.calls);
      var received := Receive(false, outcome, job.transport);
      if received.Failed? {
        return Handled(books, received.code);
      }
      if received.digest != claims.digest || !books.guardReleased || !books.countsValid {
        return Handled(books, OutcomeUncertain);
      }
      if books.repository && !books.firstFinish {
        return Handled(books, OutcomeUncertain);
      }
      report := Succeeded(received.digest);
    }
  }

  lemma {:induction false} PruneShrinks(entries: map<nat, Entry>, now: int)
    ensures |Prune(entries, now)| <= |entries|
  {
    assert Prune(entries, now).Keys <= entries.Keys;
    SubsetSize(Prune(entries, now).Keys, entries.Keys);
    assert |Prune(entries, now)| == |Prune(entries, now).Keys| && |entries| == |entries.Keys|;
  }
}
