/**
 The catalog creation journal: an intent is durable before any create is dispatched, the child may
 answer anything, and the process may stop after any single file write or child call.
 */
module CatalogJournal {
  import opened Wrappers

  type OperationId = string

  datatype Guard = Guard(inst: string, source: string, nonce: OperationId)

  /** The fingerprint of a request, injective in what it covers. */
  datatype Digest = Digest(url: string, kind: string, content: string, guard: Option<Guard>)

  datatype Status = Uncertain | Created | Refused | ExistsReview | Missing

  datatype Journal = Journal(digest: Digest, status: Status)

  datatype Action = CreateAction | ReadAction | ReceiptAction | ResumeAction

  /** A dispatched child call and the classified answer, known to the caller only if it survives. */
  datatype Call = Call(op: OperationId, action: Action, digest: Digest, answer: Status)

  datatype Store = Store(journals: map<OperationId, Journal>, intents: map<Digest, OperationId>, calls: seq<Call>)

  const EMPTY := Store(map[], map[], [])

  /** `valid` covers the object schema, the confirmation and the token; `source` is a well-formed source instance. */
  datatype Request =
    | CreateRequest(op: OperationId, kind: string, content: string, valid: bool, registration: bool,
      source: Option<string>)
    | ReconcileRequest(op: OperationId)

  /** The configured endpoint and pinned Guard, and the child's answer. */
  datatype Env = Env(url: string, guardInstance: Option<string>, answer: Status)

  datatype Effect =
    | WriteJournal(op: OperationId, journal: Journal)
    | WriteIntent(digest: Digest, op: OperationId)
    | CallChild(call: Call)

  datatype Reply = Refuse | Show(op: OperationId, status: Status)

  /** What a request does, in order, and its reply if it is not interrupted. */
  datatype Script = Script(effects: seq<Effect>, reply: Reply)

  predicate Settled(s: Status) {
    s == Created || s == Refused
  }

  /** `_reconcile_guard`. */
  function GuardScript(op: OperationId, j: Journal, env: Env, action: Action): Script
    requires j.digest.guard.Some?
  {
    if env.guardInstance != Some(j.digest.guard.value.inst) then Script([], Refuse)
    else
      var call := CallChild(Call(op, action, j.digest, env.answer));
      if env.answer == Created then Script([call, WriteJournal(op, j.(status := Created))], Show(op, Created))
      else Script([call], Show(op, j.status))
  }

  function ReconcileScript(st: Store, op: OperationId, env: Env): Script {
    if op !in st.journals then Script([], Refuse)
    else
      var j := st.journals[op];
      if j.digest.url != env.url then Script([], Refuse)
      else if Settled(j.status) then Script([], Show(op, j.status))
      else if j.digest.guard.Some? then GuardScript(op, j, env, ReceiptAction)
      else
        var seen := if env.answer == ExistsReview then ExistsReview else Uncertain;
        Script([CallChild(Call(op, ReadAction, j.digest, env.answer)), WriteJournal(op, j.(status := seen))],
          Show(op, seen))
  }

  function DigestOf(r: Request, env: Env): Digest
    requires r.CreateRequest?
  {
    Digest(env.url, r.kind, r.content,
           if r.registration && env.guardInstance.Some? && r.source.Some?
           then Some(Guard(env.guardInstance.value, r.source.value, r.op)) else None)
  }

  /** A dispatch: journal, intent, child, outcome. */
  function DispatchScript(op: OperationId, d: Digest, answer: Status): Script {
    Script([WriteJournal(op, Journal(d, Uncertain)), WriteIntent(d, op),
            CallChild(Call(op, CreateAction, d, answer)), WriteJournal(op, Journal(d, answer))],
           Show(op, answer))
  }

  /** Dispatch unless an earlier intent for the same digest may have created the object. */
  function IntentScript(st: Store, op: OperationId, d: Digest, env: Env): Script {
    if d !in st.intents then DispatchScript(op, d, env.answer)
    else
      var prev := st.intents[d];
      if prev !in st.journals || st.journals[prev].digest != d then Script([], Refuse)
      else if st.journals[prev].status != Refused then Script([], Show(prev, st.journals[prev].status))
      else DispatchScript(op, d, env.answer)
  }

  function CreateScript(st: Store, r: Request, env: Env): Script
    requires r.CreateRequest?
  {
    if !r.valid || (r.registration && r.kind != "cluster") then Script([], Refuse)
    else if r.registration && env.guardInstance.Some? && r.source.None? then Script([], Refuse)
    else
      var d := DigestOf(r, env);
      if r.op !in st.journals then IntentScript(st, r.op, d, env)
      else
        var j := st.journals[r.op];
        if j.digest != d then Script([], Refuse)
        else if d.guard.Some? && !Settled(j.status)
          then GuardScript(r.op, j, env, if r.registration then ResumeAction else ReceiptAction)
        else if !(r.registration && j.status == Refused) then Script([], Show(r.op, j.status))
        else IntentScript(st, r.op, d, env)
  }

  /** `CatalogCreation.execute`. */
  function Execute(st: Store, r: Request, env: Env): Script {
    match r
    case CreateRequest(_, _, _, _, _, _) => CreateScript(st, r, env)
    case ReconcileRequest(op) => ReconcileScript(st, op, env)
  }

  function Perform(st: Store, e: Effect): Store {
    match e
    case WriteJournal(op, j) => st.(journals := st.journals[op := j])
    case WriteIntent(d, op) => st.(intents := st.intents[d := op])
    case CallChild(c) => st.(calls := st.calls + [c])
  }

  function Play(st: Store, es: seq<Effect>): Store {
    if es == [] then st else Perform(Play(st, es[..|es| - 1]), es[|es| - 1])
  }

  /** One request, interrupted after `budget` effects unless it finishes first. */
  datatype Event = Event(request: Request, env: Env, budget: nat)

  function Survived(es: seq<Effect>, budget: nat): seq<Effect> {
    if budget <= |es| then es[..budget] else es
  }

  function Step(st: Store, e: Event): Store {
    Play(st, Survived(Execute(st, e.request, e.env).effects, e.budget))
  }

  function Run(st: Store, events: seq<Event>): Store {
    if events == [] then st else Step(Run(st, events[..|events| - 1]), events[|events| - 1])
  }

  // --------------------------------------------------------------- invariant

  predicate Creates(c: Call) {
    c.action == CreateAction
  }

  /** Calls that may create through the Guard. */
  predicate Writes(c: Call) {
    c.action == CreateAction || c.action == ResumeAction
  }

  /** A stored intent names a journal of its own digest. */
  predicate IntentsPoint(st: Store) {
    forall d :: d in st.intents ==> st.intents[d] in st.journals && st.journals[st.intents[d]].digest == d
  }

  /** Every create was journalled under its own operation first. */
  predicate CallsJournalled(st: Store) {
    forall c :: c in st.calls ==> c.op in st.journals && st.journals[c.op].digest == c.digest
  }

  /** An operation whose create may have taken effect holds the intent of its digest and is not marked refused. */
  predicate EffectsHeld(st: Store) {
    forall c :: c in st.calls && Creates(c) && c.answer != Refused ==>
      c.digest in st.intents && st.intents[c.digest] == c.op && c.op in st.journals
        && st.journals[c.op].status != Refused
  }

  /** At most one create per digest whose outcome is not a proven refusal. */
  predicate AtMostOnce(st: Store) {
    forall i, j ::
      0 <= i < j < |st.calls| && Creates(st.calls[i]) && Creates(st.calls[j])
        && st.calls[i].digest == st.calls[j].digest
      ==> st.calls[i].answer == Refused
  }

  predicate OwnNonce(st: Store) {
    forall op :: op in st.journals && st.journals[op].digest.guard.Some? ==>
      st.journals[op].digest.guard.value.nonce == op
  }

  /** An unguarded operation is marked created only by the answer to its own create. */
  predicate Earned(st: Store) {
    forall op :: op in st.journals && st.journals[op].status == Created && st.journals[op].digest.guard.None? ==>
      Call(op, CreateAction, st.journals[op].digest, Created) in st.calls
  }

  /** Only a guarded create is ever resumed. */
  predicate ResumesGuarded(st: Store) {
    forall c :: c in st.calls && c.action == ResumeAction ==> c.digest.guard.Some?
  }

  predicate Inv(st: Store) {
    && IntentsPoint(st) && CallsJournalled(st) && EffectsHeld(st) && AtMostOnce(st) && OwnNonce(st) && Earned(st)
    && ResumesGuarded(st)
  }

  /** No create of the digest may have taken effect. */
  predicate Untouched(st: Store, d: Digest) {
    forall c :: c in st.calls && Creates(c) && c.digest == d ==> c.answer == Refused
  }

  /** The operation may hold a new intent for the digest. */
  predicate MayDispatch(st: Store, op: OperationId, d: Digest) {
    && (d.guard.Some? ==> d.guard.value.nonce == op)
    && (op in st.journals ==> st.journals[op].digest == d && st.journals[op].status == Refused)
    && Untouched(st, d)
  }

  lemma JournalFirst(st: Store, op: OperationId, d: Digest)
    requires Inv(st) && MayDispatch(st, op, d)
    ensures Inv(Perform(st, WriteJournal(op, Journal(d, Uncertain))))
  {
  }

  lemma IntentNext(st: Store, op: OperationId, d: Digest)
    requires Inv(st) && Untouched(st, d)
    requires op in st.journals && st.journals[op] == Journal(d, Uncertain)
    ensures Inv(Perform(st, WriteIntent(d, op)))
  {
  }

  lemma DispatchAfter(st: Store, op: OperationId, d: Digest, answer: Status)
    requires Inv(st) && Untouched(st, d)
    requires op in st.journals && st.journals[op] == Journal(d, Uncertain) && d in st.intents && st.intents[d] == op
    ensures Inv(Perform(st, CallChild(Call(op, CreateAction, d, answer))))
  {
    hide AtMostOnce, EffectsHeld, Untouched;
    var c := Call(op, CreateAction, d, answer);
    assert forall x :: x in Perform(st, CallChild(c)).calls <==> x in st.calls || x == c;
    DispatchedOnce(st, c);
    DispatchedHeld(st, c);
  }

  lemma DispatchedHeld(st: Store, c: Call)
    requires EffectsHeld(st) && c.op in st.journals && st.journals[c.op].status != Refused
    requires c.digest in st.intents && st.intents[c.digest] == c.op
    ensures EffectsHeld(Perform(st, CallChild(c)))
  {
    assert forall x :: x in Perform(st, CallChild(c)).calls <==> x in st.calls || x == c;
  }

  lemma DispatchedOnce(st: Store, c: Call)
    requires AtMostOnce(st) && Untouched(st, c.digest)
    ensures AtMostOnce(Perform(st, CallChild(c)))
  {
    var calls := Perform(st, CallChild(c)).calls;
    assert forall i :: 0 <= i < |st.calls| ==> calls[i] == st.calls[i] && st.calls[i] in st.calls;
  }

  lemma OutcomeLast(st: Store, op: OperationId, d: Digest, answer: Status)
    requires Inv(st) && Call(op, CreateAction, d, answer) in st.calls
    requires op in st.journals && st.journals[op] == Journal(d, Uncertain)
    requires answer == Refused ==> Untouched(st, d)
    ensures Inv(Perform(st, WriteJournal(op, Journal(d, answer))))
  {
  }

  lemma PlayNext(st: Store, es: seq<Effect>, n: nat)
    requires n < |es|
    ensures Play(st, es[..n + 1]) == Perform(Play(st, es[..n]), es[n])
  {
    assert es[..n + 1][..n] == es[..n];
  }

  /** Every prefix of a dispatch keeps the invariant. */
  lemma DispatchKeeps(st: Store, op: OperationId, d: Digest, answer: Status, n: nat)
    requires Inv(st) && MayDispatch(st, op, d) && n <= 4
    ensures Inv(Play(st, DispatchScript(op, d, answer).effects[..n]))
  {
    hide Inv, Play;
    var es := DispatchScript(op, d, answer).effects;
    var c := Call(op, CreateAction, d, answer);
    PlayNone(st, es);
    PlayNext(st, es, 0);
    PlayNext(st, es, 1);
    PlayNext(st, es, 2);
    PlayNext(st, es, 3);
    JournalFirst(st, op, d);
    var st1 := Perform(st, es[0]);
    IntentNext(st1, op, d);
    var st2 := Perform(st1, es[1]);
    DispatchAfter(st2, op, d, answer);
    var st3 := Perform(st2, es[2]);
    assert forall x :: x in st3.calls <==> x in st.calls || x == c;
    OutcomeLast(st3, op, d, answer);
  }

  lemma PlayNone(st: Store, es: seq<Effect>)
    ensures Play(st, es[..0]) == st
  {
  }

  /** A call that is not a create, on a journalled operation. */
  lemma OtherCall(st: Store, c: Call)
    requires Inv(st) && !Creates(c) && c.op in st.journals && st.journals[c.op].digest == c.digest
    requires c.action == ResumeAction ==> c.digest.guard.Some?
    ensures Inv(Perform(st, CallChild(c)))
  {
    var st' := Perform(st, CallChild(c));
    assert forall x :: x in st'.calls <==> x in st.calls || x == c;
    assert forall i :: 0 <= i < |st.calls| ==> st'.calls[i] == st.calls[i];
  }

  /** Reconciliation marks nothing refused, and marks only guarded operations created. */
  lemma Remark(st: Store, op: OperationId, status: Status)
    requires Inv(st) && op in st.journals && status != Refused
    requires status == Created ==> st.journals[op].digest.guard.Some?
    ensures Inv(Perform(st, WriteJournal(op, st.journals[op].(status := status))))
  {
  }

  lemma CallThenMark(st: Store, c: Call, status: Status, n: nat)
    requires Inv(st) && !Creates(c) && c.op in st.journals && st.journals[c.op].digest == c.digest
    requires status != Refused && n <= 2
    requires status == Created || c.action == ResumeAction ==> c.digest.guard.Some?
    ensures Inv(Play(st, [CallChild(c), WriteJournal(c.op, st.journals[c.op].(status := status))][..n]))
  {
    hide Inv, Play;
    var es := [CallChild(c), WriteJournal(c.op, st.journals[c.op].(status := status))];
    PlayNone(st, es);
    PlayNext(st, es, 0);
    PlayNext(st, es, 1);
    OtherCall(st, c);
    Remark(Perform(st, es[0]), c.op, status);
  }

  lemma GuardKeeps(st: Store, op: OperationId, env: Env, action: Action, n: nat)
    requires Inv(st) && op in st.journals && st.journals[op].digest.guard.Some? && action != CreateAction
    requires n <= |GuardScript(op, st.journals[op], env, action).effects|
    ensures Inv(Play(st, GuardScript(op, st.journals[op], env, action).effects[..n]))
  {
    hide Inv, Play;
    var j := st.journals[op];
    var es := GuardScript(op, j, env, action).effects;
    var c := Call(op, action, j.digest, env.answer);
    PlayNone(st, es);
    if env.guardInstance == Some(j.digest.guard.value.inst) {
      if env.answer == Created {
        CallThenMark(st, c, Created, n);
      } else {
        PlayNext(st, es, 0);
        OtherCall(st, c);
      }
    }
  }

  lemma ReconcileKeeps(st: Store, op: OperationId, env: Env, n: nat)
    requires Inv(st) && n <= |ReconcileScript(st, op, env).effects|
    ensures Inv(Play(st, ReconcileScript(st, op, env).effects[..n]))
  {
    hide Inv, Play, GuardScript;
    var es := ReconcileScript(st, op, env).effects;
    PlayNone(st, es);
    if n > 0 {
      var j := st.journals[op];
      if j.digest.guard.Some? {
        GuardKeeps(st, op, env, ReceiptAction, n);
      } else {
        CallThenMark(st, Call(op, ReadAction, j.digest, env.answer),
                     if env.answer == ExistsReview then ExistsReview else Uncertain, n);
      }
    }
  }

  /** An intent that is absent or proved refused leaves the digest untouched. */
  lemma RefusedIntentIsUntouched(st: Store, d: Digest)
    requires Inv(st)
    requires d in st.intents ==> st.journals[st.intents[d]].status == Refused
    ensures Untouched(st, d)
  {
  }

  lemma IntentKeeps(st: Store, op: OperationId, d: Digest, env: Env, n: nat)
    requires Inv(st) && n <= |IntentScript(st, op, d, env).effects|
    requires d.guard.Some? ==> d.guard.value.nonce == op
    requires op in st.journals ==> st.journals[op].digest == d && st.journals[op].status == Refused
    ensures Inv(Play(st, IntentScript(st, op, d, env).effects[..n]))
  {
    hide Inv, Play, DispatchScript;
    PlayNone(st, IntentScript(st, op, d, env).effects);
    if n > 0 {
      RefusedIntentIsUntouched(st, d);
      DispatchLength(op, d, env.answer);
      DispatchKeeps(st, op, d, env.answer, n);
    }
  }

  lemma DispatchLength(op: OperationId, d: Digest, answer: Status)
    ensures |DispatchScript(op, d, answer).effects| == 4
  {
  }

  /** Every request keeps the invariant, wherever it is interrupted. */
  lemma StepKeeps(st: Store, e: Event)
    requires Inv(st)
    ensures Inv(Step(st, e))
  {
    hide Inv, Play, IntentScript, GuardScript, ReconcileScript;
    var es := Execute(st, e.request, e.env).effects;
    var n := if e.budget <= |es| then e.budget else |es|;
    assert es[..|es|] == es;
    PlayNone(st, es);
    var r := e.request;
    if r.ReconcileRequest? {
      ReconcileKeeps(st, r.op, e.env, n);
    } else if n > 0 {
      var d := DigestOf(r, e.env);
      if r.op in st.journals && d.guard.Some? && !Settled(st.journals[r.op].status) {
        GuardKeeps(st, r.op, e.env, if r.registration then ResumeAction else ReceiptAction, n);
      } else {
        IntentKeeps(st, r.op, d, e.env, n);
      }
    }
  }

  /**
   Over every run of create and reconcile requests, interrupted after any journal write, intent write
   or child call: each digest has at most one create that was not refused, every create was preceded by
   its own journal, intents point to journals of their digest, and unguarded operations are marked
   created only by their own create.
   */
  lemma {:induction false} EveryRunKeeps(events: seq<Event>)
    ensures Inv(Run(EMPTY, events))
  {
    hide Inv, Step;
    if events == [] {
      EmptyInv();
    } else {
      EveryRunKeeps(events[..|events| - 1]);
      StepKeeps(Run(EMPTY, events[..|events| - 1]), events[|events| - 1]);
    }
  }

  lemma EmptyInv()
    ensures Inv(EMPTY)
  {
  }

  predicate Effective(c: Call, d: Digest) {
    Creates(c) && c.digest == d && c.answer != Refused
  }

  function CountEffective(calls: seq<Call>, d: Digest): nat {
    if calls == [] then 0
    else CountEffective(calls[..|calls| - 1], d) + (if Effective(calls[|calls| - 1], d) then 1 else 0)
  }

  lemma {:induction false} NoneEffective(calls: seq<Call>, d: Digest)
    requires forall c :: c in calls ==> !Effective(c, d)
    ensures CountEffective(calls, d) == 0
  {
    if calls != [] {
      NoneEffective(calls[..|calls| - 1], d);
    }
  }

  lemma {:induction false} CountOnce(calls: seq<Call>, d: Digest)
    requires forall i, j ::
               0 <= i < j < |calls| && Creates(calls[i]) && Effective(calls[j], d) && calls[i].digest == d
               ==> calls[i].answer == Refused
    ensures CountEffective(calls, d) <= 1
  {
    if calls != [] {
      var init := calls[..|calls| - 1];
      if Effective(calls[|calls| - 1], d) {
        NoneEffective(init, d);
      } else {
        CountOnce(init, d);
      }
    }
  }

  /** At most one dispatched create per (url, kind, object) may have taken effect, over every run. */
  lemma AtMostOneEffectiveCreate(events: seq<Event>, d: Digest)
    ensures CountEffective(Run(EMPTY, events).calls, d) <= 1
  {
    hide Run;
    EveryRunKeeps(events);
    CountOnce(Run(EMPTY, events).calls, d);
  }

  /** What a call may bring into being: the Guard makes one object per nonce, plain creates one object each. */
  datatype Made = ByNonce(guard: Guard) | BySending(index: nat)

  function MadeBy(calls: seq<Call>, i: nat): Made
    requires i < |calls|
  {
    if calls[i].digest.guard.Some? then ByNonce(calls[i].digest.guard.value) else BySending(i)
  }

  /** The call created its object, or may have. */
  predicate MayMake(c: Call, d: Digest) {
    Writes(c) && c.digest == d && c.answer != Refused
  }

  /**
   One object per digest, over every run and counting resumptions too: creates and resumptions that may have
   taken effect for one digest make the same object. Without a Guard they are one and the same call; with
   one they carry the nonce of a single operation.
   */
  lemma OneObjectPerDigest(events: seq<Event>, d: Digest, i: nat, j: nat)
    requires i < |Run(EMPTY, events).calls| && j < |Run(EMPTY, events).calls|
    requires MayMake(Run(EMPTY, events).calls[i], d) && MayMake(Run(EMPTY, events).calls[j], d)
    ensures MadeBy(Run(EMPTY, events).calls, i) == MadeBy(Run(EMPTY, events).calls, j)
    ensures Run(EMPTY, events).calls[i].op == Run(EMPTY, events).calls[j].op
    ensures d.guard.None? ==> i == j
    ensures d.guard.Some? ==> Run(EMPTY, events).calls[i].op == d.guard.value.nonce
  {
    hide Run;
    EveryRunKeeps(events);
    var calls := Run(EMPTY, events).calls;
    assert calls[i] in calls && calls[j] in calls;
  }

  // -------------------------------------------------------------- provenance

  lemma {:induction false} PlayKeepsCreated(st: Store, es: seq<Effect>, op: OperationId)
    requires op in st.journals
    requires forall e :: e in es && e.WriteJournal? ==> e.op != op
    ensures op in Play(st, es).journals && Play(st, es).journals[op] == st.journals[op]
  {
    if es != [] {
      PlayKeepsCreated(st, es[..|es| - 1], op);
    }
  }

  /** A created operation is never written again by any request. */
  lemma CreatedIsLeftAlone(st: Store, e: Event, op: OperationId)
    requires op in st.journals && st.journals[op].status == Created
    ensures forall x :: x in Execute(st, e.request, e.env).effects && x.WriteJournal? ==> x.op != op
  {
  }

  /** Created is terminal. */
  lemma CreatedIsTerminal(st: Store, e: Event, op: OperationId)
    requires op in st.journals && st.journals[op].status == Created
    ensures op in Step(st, e).journals && Step(st, e).journals[op] == st.journals[op]
  {
    CreatedIsLeftAlone(st, e, op);
    PlayKeepsCreated(st, Survived(Execute(st, e.request, e.env).effects, e.budget), op);
  }

  /** All Guard creates of one operation over all retries carry one nonce, source and object. */
  lemma GuardCreatesAgree(events: seq<Event>, a: Call, b: Call)
    requires a in Run(EMPTY, events).calls && b in Run(EMPTY, events).calls
    requires a.op == b.op && Writes(a) && Writes(b)
    ensures a.digest == b.digest
    ensures a.digest.guard.Some? ==> a.digest.guard.value.nonce == a.op
  {
    hide Run;
    EveryRunKeeps(events);
  }

  /** `_registration_cluster`: the reply of another operation is only shown for review. */
  function RegistrationReply(op: OperationId, reply: Reply): Reply {
    match reply
    case Refuse => Refuse
    case Show(owner, status) => if owner != op then Show(op, ExistsReview) else reply
  }

  /** A registration that reports CREATED names a journal of its own in that state, and earned it if unguarded. */
  lemma RegistrationReportsItsOwn(events: seq<Event>, e: Event)
    requires var st := Run(EMPTY, events);
      && e.request.CreateRequest? && e.request.registration
      && e.budget >= |Execute(st, e.request, e.env).effects|
      && RegistrationReply(e.request.op, Execute(st, e.request, e.env).reply) == Show(e.request.op, Created)
    ensures var st := Run(EMPTY, events + [e]);
      && e.request.op in st.journals && st.journals[e.request.op].status == Created
      && st.journals[e.request.op].digest == DigestOf(e.request, e.env)
      && (st.journals[e.request.op].digest.guard.None? ==>
            Call(e.request.op, CreateAction, DigestOf(e.request, e.env), Created) in st.calls)
  {
    hide Run, Play;
    var st := Run(EMPTY, events);
    EveryRunKeeps(events);
    EveryRunKeeps(events + [e]);
    RunSnoc(events, e);
    var es := Execute(st, e.request, e.env).effects;
    assert es[..|es|] == es && Survived(es, e.budget) == es;
    CreatedReply(st, e.request, e.env);
  }

  lemma RunSnoc(events: seq<Event>, e: Event)
    ensures Run(EMPTY, events + [e]) == Step(Run(EMPTY, events), e)
  {
  }

  lemma CreatedReply(st: Store, r: Request, env: Env)
    requires Inv(st) && r.CreateRequest? && r.registration
    requires RegistrationReply(r.op, Execute(st, r, env).reply) == Show(r.op, Created)
    ensures var after := Play(st, Execute(st, r, env).effects);
      r.op in after.journals && after.journals[r.op] == Journal(DigestOf(r, env), Created)
  {
    hide Play, GuardScript, DispatchScript, Inv;
    var d := DigestOf(r, env);
    PlayNone(st, []);
    DispatchRecords(st, r.op, d, env.answer);
    if r.op in st.journals && d.guard.Some? && st.journals[r.op].digest == d {
      GuardRecords(st, r.op, st.journals[r.op], env, if r.registration then ResumeAction else ReceiptAction);
    }
  }

  /** A dispatch shows the answer it recorded last. */
  lemma DispatchRecords(st: Store, op: OperationId, d: Digest, answer: Status)
    ensures var script := DispatchScript(op, d, answer);
            var after := Play(st, script.effects);
            && script.reply == Show(op, answer)
            && op in after.journals && after.journals[op] == Journal(d, answer)
  {
    hide Play;
    var es := DispatchScript(op, d, answer).effects;
    PlayNext(st, es, 3);
    assert es[..4] == es;
  }

  /** A guarded answer that newly shows CREATED was recorded first. */
  lemma GuardRecords(st: Store, op: OperationId, j: Journal, env: Env, action: Action)
    requires j.digest.guard.Some?
    ensures var script := GuardScript(op, j, env, action);
            var after := Play(st, script.effects);
            script.reply == Show(op, Created) && j.status != Created ==>
              op in after.journals && after.journals[op] == j.(status := Created)
  {
    hide Play;
    var es := GuardScript(op, j, env, action).effects;
    if |es| == 2 {
      PlayNext(st, es, 1);
      assert es[..2] == es;
    }
  }

  // ------------------------------------------------- uninterrupted requests

  /** What a request asks to create: under a Guard only for a registration. */
  function Asked(r: Request, env: Env): Digest
    requires r.CreateRequest? && (r.registration && env.guardInstance.Some? ==> r.source.Some?)
  {
    var guard := if r.registration && env.guardInstance.Some?
                 then Some(Guard(env.guardInstance.value, r.source.value, r.op)) else None;
    Digest(env.url, r.kind, r.content, guard)
  }

  predicate WellFormed(r: Request, env: Env)
    requires r.CreateRequest?
  {
    r.valid && (r.registration ==> r.kind == "cluster" && (env.guardInstance.Some? ==> r.source.Some?))
  }

  /** Nothing written, nothing sent. */
  predicate OnlyReplies(st: Store, after: Store, reply: Reply, expected: Reply) {
    after == st && reply == expected
  }

  /** Journal, intent and one create, with the answer recorded and shown. */
  predicate Sends(st: Store, op: OperationId, d: Digest, answer: Status, after: Store, reply: Reply) {
    && after.calls == st.calls + [Call(op, CreateAction, d, answer)]
    && after.intents == st.intents[d := op]
    && after.journals == st.journals[op := Journal(d, answer)]
    && reply == Show(op, answer)
  }

  /** One Guard call for a journalled operation; only CREATED is recorded. */
  predicate Asks(st: Store, op: OperationId, action: Action, answer: Status, after: Store, reply: Reply)
    requires op in st.journals
  {
    var j := st.journals[op];
    var seen := if answer == Created then Created else j.status;
    && after.calls == st.calls + [Call(op, action, j.digest, answer)]
    && after.intents == st.intents
    && after.journals == st.journals[op := j.(status := seen)]
    && reply == Show(op, seen)
  }

  /**
   What an uninterrupted create request does. An operation already journalled for something else is refused;
   an unsettled guarded one is resumed; any other known one is shown, except that a registration may retry
   after a proven refusal. Otherwise the digest's intent decides: none, or one proven refused, sends.
   */
  predicate CreateDoes(st: Store, r: Request, env: Env, after: Store, reply: Reply)
    requires r.CreateRequest?
  {
    if !WellFormed(r, env) then OnlyReplies(st, after, reply, Refuse)
    else
      var d := Asked(r, env);
      var known := r.op in st.journals;
      if known && st.journals[r.op].digest != d then OnlyReplies(st, after, reply, Refuse)
      else if known && d.guard.Some? && st.journals[r.op].status !in {Created, Refused} then
        Asks(st, r.op, ResumeAction, env.answer, after, reply)
      else if known && (!r.registration || st.journals[r.op].status != Refused) then
        OnlyReplies(st, after, reply, Show(r.op, st.journals[r.op].status))
      else if d !in st.intents then Sends(st, r.op, d, env.answer, after, reply)
      else
        var prior := st.intents[d];
        if prior !in st.journals || st.journals[prior].digest != d then OnlyReplies(st, after, reply, Refuse)
        else if st.journals[prior].status == Refused then Sends(st, r.op, d, env.answer, after, reply)
        else OnlyReplies(st, after, reply, Show(prior, st.journals[prior].status))
  }

  /** What an uninterrupted reconciliation does: settled operations are shown, all others are looked up once. */
  predicate ReconcileDoes(st: Store, op: OperationId, env: Env, after: Store, reply: Reply) {
    if op !in st.journals || st.journals[op].digest.url != env.url then OnlyReplies(st, after, reply, Refuse)
    else
      var j := st.journals[op];
      if j.status in {Created, Refused} then OnlyReplies(st, after, reply, Show(op, j.status))
      else if j.digest.guard.Some? then
        if env.guardInstance == Some(j.digest.guard.value.inst)
        then Asks(st, op, ReceiptAction, env.answer, after, reply)
        else OnlyReplies(st, after, reply, Refuse)
      else
        var seen := if env.answer == ExistsReview then ExistsReview else Uncertain;
        && after.calls == st.calls + [Call(op, ReadAction, j.digest, env.answer)]
        && after.intents == st.intents
        && after.journals == st.journals[op := j.(status := seen)]
        && reply == Show(op, seen)
  }

  predicate Does(st: Store, r: Request, env: Env, after: Store, reply: Reply) {
    match r
    case CreateRequest(_, _, _, _, _, _) => CreateDoes(st, r, env, after, reply)
    case ReconcileRequest(op) => ReconcileDoes(st, op, env, after, reply)
  }

  lemma DispatchSends(st: Store, op: OperationId, d: Digest, answer: Status)
    ensures var script := DispatchScript(op, d, answer);
            Sends(st, op, d, answer, Play(st, script.effects), script.reply)
  {
    hide Play;
    var es := DispatchScript(op, d, answer).effects;
    PlayNone(st, es);
    PlayNext(st, es, 0);
    PlayNext(st, es, 1);
    PlayNext(st, es, 2);
    PlayNext(st, es, 3);
    assert es[..4] == es;
    assert st.journals[op := Journal(d, Uncertain)][op := Journal(d, answer)] == st.journals[op := Journal(d, answer)];
  }

  lemma GuardAsks(st: Store, op: OperationId, env: Env, action: Action)
    requires op in st.journals && st.journals[op].digest.guard.Some?
    requires env.guardInstance == Some(st.journals[op].digest.guard.value.inst)
    ensures var script := GuardScript(op, st.journals[op], env, action);
            Asks(st, op, action, env.answer, Play(st, script.effects), script.reply)
  {
    hide Play;
    var es := GuardScript(op, st.journals[op], env, action).effects;
    PlayNone(st, es);
    PlayNext(st, es, 0);
    assert es[..|es|] == es;
    if |es| == 2 {
      PlayNext(st, es, 1);
    } else {
      assert st.journals[op := st.journals[op]] == st.journals;
    }
  }

  /** Every uninterrupted request does exactly this, from any store. */
  lemma UninterruptedDoes(st: Store, r: Request, env: Env)
    ensures Does(st, r, env, Play(st, Execute(st, r, env).effects), Execute(st, r, env).reply)
  {
    hide Play, DispatchScript, GuardScript, Sends, Asks;
    PlayNone(st, []);
    match r
    case CreateRequest(op, _, _, _, _, _) =>
      if WellFormed(r, env) {
        DispatchSends(st, op, DigestOf(r, env), env.answer);
        if op in st.journals && st.journals[op].digest == DigestOf(r, env) && DigestOf(r, env).guard.Some? {
          GuardAsks(st, op, env, ResumeAction);
        }
      }
    case ReconcileRequest(op) =>
      if op in st.journals {
        if st.journals[op].digest.guard.Some? {
          if env.guardInstance == Some(st.journals[op].digest.guard.value.inst) {
            GuardAsks(st, op, env, ReceiptAction);
          } else {
            MismatchedGuard(op, st.journals[op], env, ReceiptAction);
          }
        } else {
          ReadRecords(st, op, env.answer);
        }
      }
  }

  lemma ScriptsAreShort(st: Store, r: Request, env: Env)
    ensures |Execute(st, r, env).effects| <= 4
  {
  }

  lemma AllSurvive(es: seq<Effect>, budget: nat)
    requires |es| <= budget
    ensures Survived(es, budget) == es
  {
    assert es[..|es|] == es;
  }

  lemma MismatchedGuard(op: OperationId, j: Journal, env: Env, action: Action)
    requires j.digest.guard.Some? && env.guardInstance != Some(j.digest.guard.value.inst)
    ensures GuardScript(op, j, env, action) == Script([], Refuse)
  {
  }

  lemma ReadRecords(st: Store, op: OperationId, answer: Status)
    requires op in st.journals
    ensures var j := st.journals[op];
            var seen := j.(status := if answer == ExistsReview then ExistsReview else Uncertain);
            var after := Play(st, [CallChild(Call(op, ReadAction, j.digest, answer)), WriteJournal(op, seen)]);
            && after.calls == st.calls + [Call(op, ReadAction, j.digest, answer)]
            && after.intents == st.intents && after.journals == st.journals[op := seen]
  {
    hide Play;
    var j := st.journals[op];
    var seen := j.(status := if answer == ExistsReview then ExistsReview else Uncertain);
    var es := [CallChild(Call(op, ReadAction, j.digest, answer)), WriteJournal(op, seen)];
    PlayNone(st, es);
    PlayNext(st, es, 0);
    PlayNext(st, es, 1);
    assert es[..2] == es;
  }

  // -------------------------------------------------------------- as it runs

  /** From `st`, the script ran up to the budget: either it finished with its reply, or it was interrupted. */
  ghost predicate Played(st: Store, budget: nat, script: Script, st': Store, reply: Option<Reply>) {
    && st' == Play(st, Survived(script.effects, budget))
    && reply == if budget >= |script.effects| then Some(script.reply) else None
  }

  lemma PlayedNothing(st: Store, budget: nat, reply: Reply)
    ensures Played(st, budget, Script([], reply), st, Some(reply))
  {
  }

  /** The files under the bootstrap root; the process dies when its budget of effects is spent. */
  class CatalogCreation {
    var journals: map<OperationId, Journal>
    var intents: map<Digest, OperationId>
    var calls: seq<Call>
    var budget: nat

    ghost function Current(): Store
      reads this
    {
      Store(journals, intents, calls)
    }

    constructor (budget: nat)
      ensures Current() == EMPTY && this.budget == budget
    {
      journals, intents, calls := map[], map[], [];
      this.budget := budget;
    }

    method SaveJournal(op: OperationId, j: Journal) returns (alive: bool)
      modifies this
      ensures alive <==> old(budget) > 0
      ensures alive ==> Current() == Perform(old(Current()), WriteJournal(op, j)) && budget == old(budget) - 1
      ensures !alive ==> Current() == old(Current()) && budget == 0
    {
      alive := budget > 0;
      if alive {
        journals, budget := journals[op := j], budget - 1;
      }
    }

    method SaveIntent(d: Digest, op: OperationId) returns (alive: bool)
      modifies this
      ensures alive <==> old(budget) > 0
      ensures alive ==> Current() == Perform(old(Current()), WriteIntent(d, op)) && budget == old(budget) - 1
      ensures !alive ==> Current() == old(Current()) && budget == 0
    {
      alive := budget > 0;
      if alive {
        intents, budget := intents[d := op], budget - 1;
      }
    }

    method Child(op: OperationId, action: Action, d: Digest, answer: Status) returns (alive: bool)
      modifies this
      ensures alive <==> old(budget) > 0
      ensures alive ==>
                && Current() == Perform(old(Current()), CallChild(Call(op, action, d, answer)))
                && budget == old(budget) - 1
      ensures !alive ==> Current() == old(Current()) && budget == 0
    {
      alive := budget > 0;
      if alive {
        calls, budget := calls + [Call(op, action, d, answer)], budget - 1;
      }
    }

    /** Journal and intent before the child that could send a POST, outcome after it. */
    method Dispatch(op: OperationId, d: Digest, answer: Status) returns (reply: Option<Reply>)
      modifies this
      ensures Played(old(Current()), old(budget), DispatchScript(op, d, answer), Current(), reply)
    {
      hide Play, Perform;
      ghost var st, es := Current(), DispatchScript(op, d, answer).effects;
      PlayNone(st, es);
      PlayNext(st, es, 0);
      PlayNext(st, es, 1);
      PlayNext(st, es, 2);
      PlayNext(st, es, 3);
      assert es[..4] == es;
      var alive := SaveJournal(op, Journal(d, Uncertain));
      if !alive { return None; }
      alive := SaveIntent(d, op);
      if !alive { return None; }
      alive := Child(op, CreateAction, d, answer);
      if !alive { return None; }
      alive := SaveJournal(op, Journal(d, answer));
      if !alive { return None; }
      reply := Some(Show(op, answer));
    }

    /** `_reconcile_guard` as it runs. */
    method ReconcileGuard(op: OperationId, j: Journal, env: Env, action: Action) returns (reply: Option<Reply>)
      requires j.digest.guard.Some?
      modifies this
      ensures Played(old(Current()), old(budget), GuardScript(op, j, env, action), Current(), reply)
    {
      hide Play, Perform;
      ghost var st, es := Current(), GuardScript(op, j, env, action).effects;
      PlayNone(st, es);
      if env.guardInstance != Some(j.digest.guard.value.inst) {
        return Some(Refuse);
      }
      PlayNext(st, es, 0);
      assert es[..|es|] == es;
      var alive := Child(op, action, j.digest, env.answer);
      if !alive { return None; }
      if env.answer == Created {
        PlayNext(st, es, 1);
        alive := SaveJournal(op, j.(status := Created));
        if !alive { return None; }
        return Some(Show(op, Created));
      }
      reply := Some(Show(op, j.status));
    }

    method Reconcile(op: OperationId, env: Env) returns (reply: Option<Reply>)
      modifies this
      ensures Played(old(Current()), old(budget), ReconcileScript(old(Current()), op, env), Current(), reply)
    {
      hide Play, Perform;
      ghost var st, es := Current(), ReconcileScript(Current(), op, env).effects;
      PlayNone(st, es);
      if op !in journals || journals[op].digest.url != env.url {
        return Some(Refuse);
      }
      var j := journals[op];
      if Settled(j.status) {
        return Some(Show(op, j.status));
      }
      if j.digest.guard.Some? {
        reply := ReconcileGuard(op, j, env, ReceiptAction);
        return;
      }
      PlayNext(st, es, 0);
      PlayNext(st, es, 1);
      assert es[..2] == es;
      var alive := Child(op, ReadAction, j.digest, env.answer);
      if !alive { return None; }
      var seen := if env.answer == ExistsReview then ExistsReview else Uncertain;
      alive := SaveJournal(op, j.(status := seen));
      if !alive { return None; }
      reply := Some(Show(op, seen));
    }

    method Create(r: Request, env: Env) returns (reply: Option<Reply>)
      requires r.CreateRequest?
      modifies this
      ensures Played(old(Current()), old(budget), CreateScript(old(Current()), r, env), Current(), reply)
    {
      hide Played, Play, Perform, DispatchScript, GuardScript;
      PlayedNothing(Current(), budget, Refuse);
      if !r.valid || (r.registration && r.kind != "cluster")
          || (r.registration && env.guardInstance.Some? && r.source.None?) {
        return Some(Refuse);
      }
      var d := DigestOf(r, env);
      if r.op in journals {
        var j := journals[r.op];
        if j.digest != d {
          return Some(Refuse);
        }
        if d.guard.Some? && !Settled(j.status) {
          reply := ReconcileGuard(r.op, j, env, if r.registration then ResumeAction else ReceiptAction);
          return;
        }
        if !(r.registration && j.status == Refused) {
          PlayedNothing(Current(), budget, Show(r.op, j.status));
          return Some(Show(r.op, j.status));
        }
      }
      if d in intents {
        var prev := intents[d];
        if prev !in journals || journals[prev].digest != d {
          return Some(Refuse);
        }
        if journals[prev].status != Refused {
          PlayedNothing(Current(), budget, Show(prev, journals[prev].status));
          return Some(Show(prev, journals[prev].status));
        }
      }
      reply := Dispatch(r.op, d, env.answer);
    }

    /** `execute`: the invariant of every run is kept, and an uninterrupted request gives the specified reply. */
    method Request(r: Request, env: Env) returns (reply: Option<Reply>)
      requires Inv(Current())
      modifies this
      ensures Current() == Step(old(Current()), Event(r, env, old(budget)))
      ensures reply.Some? ==> reply.value == Execute(old(Current()), r, env).reply
      ensures reply.Some? ==> Does(old(Current()), r, env, Current(), reply.value)
      ensures old(budget) >= 4 ==> reply.Some?
      ensures Inv(Current())
    {
      hide Inv, Play, CreateScript, ReconcileScript, Does;
      UninterruptedDoes(Current(), r, env);
      ScriptsAreShort(Current(), r, env);
      if |Execute(Current(), r, env).effects| <= budget {
        AllSurvive(Execute(Current(), r, env).effects, budget);
      }
      StepKeeps(Current(), Event(r, env, budget));
      match r {
        case CreateRequest(_, _, _, _, _, _) =>
          reply := Create(r, env);
        case ReconcileRequest(op) =>
          reply := Reconcile(op, env);
      }
    }
  }
}
