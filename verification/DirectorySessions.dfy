/** Directory users, their individual roles and LDAP sessions inside the auth transaction. */
module DirectorySessions {
  import opened Wrappers
  import opened Collections

  datatype Role = Viewer | Operator | Admin

  const READ := {"source.read", "run.read", "diagnostics.read"}
  const OPERATE := READ + {"source.plan", "source.apply", "source.probe", "source.register", "source.schedule"}
  const ADMIN := OPERATE
    + {"catalog.create", "policy.read", "policy.write", "source.configure", "source.remove", "bootstrap.manage",
    "identity.manage"}

  function Permissions(r: Role): set<string> {
    match r
    case Viewer => READ
    case Operator => OPERATE
    case Admin => ADMIN
  }

  const CAPACITY := 256
  const IDLE := 1800
  const LIFETIME := 28800
  const RECHECK := 30
  const MEMBERS := 5000
  const USERS := 10000

  type Identity = string
  type Token = string

  datatype User = User(role: Role, active: bool)

  datatype Session = Session(identity: Identity, lastSeen: int, expires: int, checked: int)

  /** `decided` records the administrator's role decisions since the last directory reset; no operation reads it. */
  datatype State = State(enabled: bool, users: map<Identity, User>, sessions: map<Token, Session>,
      decided: map<Identity, Role>)

  const INITIAL := State(false, map[], map[], map[])

  /** `directory_user`: a known identity keeps its role, a new one is a viewer. */
  function Described(users: map<Identity, User>, id: Identity, active: bool): User {
    User(if id in users then users[id].role else Viewer, active)
  }

  predicate Expired(s: Session, now: int) {
    s.expires <= now || s.lastSeen + IDLE <= now
  }

  // -------------------------------------------------------------------- login

  function Fresh(sessions: map<Token, Session>, now: int): map<Token, Session> {
    map t | t in sessions && !Expired(sessions[t], now) :: sessions[t]
  }

  predicate Idlest(sessions: map<Token, Session>, t: Token) {
    t in sessions && forall x :: x in sessions ==> sessions[t].lastSeen <= sessions[x].lastSeen
  }

  lemma {:induction false} IdlestExists(sessions: map<Token, Session>)
    requires |sessions| > 0
    ensures exists t :: Idlest(sessions, t)
    decreases |sessions|
  {
    var t :| t in sessions;
    var rest := sessions - {t};
    assert sessions.Keys == rest.Keys + {t};
    if rest == map[] {
      assert rest.Keys == {};
      assert Idlest(sessions, t);
    } else {
      IdlestExists(rest);
      var o :| Idlest(rest, o);
      assert forall x :: x in sessions <==> x == t || x in rest;
      if sessions[t].lastSeen <= rest[o].lastSeen {
        assert Idlest(sessions, t);
      } else {
        assert Idlest(sessions, o);
      }
    }
  }

  /** At capacity the session idle the longest makes room. */
  ghost function Roomy(sessions: map<Token, Session>): map<Token, Session> {
    if |sessions| < CAPACITY then sessions
    else
      IdlestExists(sessions);
      var t :| Idlest(sessions, t);
      sessions - {t}
  }

  /** What the directory answers: an error, or an identity that may be active. */
  datatype Answer = Fails | Answers(id: Identity, active: bool)

  ghost function Login(s: State, a: Answer, token: Token, now: int): State {
    if !s.enabled || a.Fails? || !a.active then s
    else
      s.(users := s.users[a.id := Described(s.users, a.id, true)],
         sessions := Roomy(Fresh(s.sessions, now))[token := Session(a.id, now, now + LIFETIME, now)])
  }

  // ---------------------------------------------------------------------- use

  /** A write, or a cached identity older than thirty seconds, is checked with the directory again. */
  predicate Rechecks(s: Session, permission: Option<string>, now: int) {
    s.checked + RECHECK <= now || (permission.Some? && permission.value !in READ)
  }

  datatype Used = Used(state: State, granted: bool)

  /** `ldap_session`. */
  function Use(s: State, token: Token, permission: Option<string>, a: Answer, now: int): Used {
    if token !in s.sessions || Expired(s.sessions[token], now) || !s.enabled then Used(s, false)
    else
      var v := s.sessions[token];
      if Rechecks(v, permission, now) && (a.Fails? || a.id != v.identity || !a.active) then
        Used(s.(sessions := s.sessions - {token}), false)
      else
        var t := if Rechecks(v, permission, now)
                 then s.(users := s.users[v.identity := Described(s.users, v.identity, true)],
                         sessions := s.sessions[token := v.(checked := now)])
                 else s;
        if v.identity !in t.users || !t.users[v.identity].active then Used(t, false)
        else if permission.Some? && permission.value !in Permissions(t.users[v.identity].role) then Used(t, false)
        else Used(t.(sessions := t.sessions[token := t.sessions[token].(lastSeen := now)]), true)
  }

  // --------------------------------------------------------------------- sync

  datatype Member = Member(id: Identity, active: bool)

  predicate Distinct(ms: seq<Member>) {
    forall i, j :: 0 <= i < j < |ms| ==> ms[i].id != ms[j].id
  }

  function MemberUsers(users: map<Identity, User>, ms: seq<Member>): map<Identity, User> {
    if ms == [] then map[]
    else MemberUsers(users, ms[..|ms| - 1])[ms[|ms| - 1].id := Described(users, ms[|ms| - 1].id, ms[|ms| - 1].active)]
  }

  /** Known identities missing from the snapshot are kept, inactive. */
  function Synced(users: map<Identity, User>, ms: seq<Member>): map<Identity, User> {
    var next := MemberUsers(users, ms);
    next + map id | id in users.Keys - next.Keys :: users[id].(active := false)
  }

  function ActiveOnly(sessions: map<Token, Session>, users: map<Identity, User>): map<Token, Session> {
    map t | t in sessions && sessions[t].identity in users && users[sessions[t].identity].active :: sessions[t]
  }

  predicate Accepts(s: State, complete: bool, ms: seq<Member>) {
    s.enabled && complete && |ms| <= MEMBERS && Distinct(ms) && |Synced(s.users, ms)| <= USERS
  }

  /** `sync_directory`: only a complete bounded snapshot replaces the membership. */
  function Sync(s: State, complete: bool, ms: seq<Member>): State {
    if !Accepts(s, complete, ms) then s
    else s.(users := Synced(s.users, ms), sessions := ActiveOnly(s.sessions, Synced(s.users, ms)))
  }

  // ------------------------------------------------------------ administration

  function Without(sessions: map<Token, Session>, id: Identity): map<Token, Session> {
    map t | t in sessions && sessions[t].identity != id :: sessions[t]
  }

  /** `ldap.users.role`; `authorized` covers the administrator's session, recency and revision. */
  function SetRole(s: State, authorized: bool, id: Identity, role: Role): State {
    if !authorized || id !in s.users then s
    else s.(users := s.users[id := s.users[id].(role := role)], sessions := Without(s.sessions, id),
      decided := s.decided[id := role])
  }

  /** `_save_directory`, disabling and migration: sessions end, and a changed directory forgets its users. */
  function Save(s: State, enabled: bool, reset: bool): State {
    State(enabled, if reset then map[] else s.users, map[], if reset then map[] else s.decided)
  }

  // --------------------------------------------------------------------- runs

  datatype Event =
    | LoginEvent(answer: Answer, token: Token, now: int)
    | UseEvent(token: Token, permission: Option<string>, answer: Answer, now: int)
    | SyncEvent(complete: bool, members: seq<Member>)
    | RoleEvent(authorized: bool, id: Identity, role: Role)
    | SaveEvent(enabled: bool, reset: bool)
    | RevokeEvent
    | LogoutEvent(token: Token)

  ghost function Step(s: State, e: Event): State {
    match e
    case LoginEvent(a, token, now) => Login(s, a, token, now)
    case UseEvent(token, permission, a, now) => Use(s, token, permission, a, now).state
    case SyncEvent(complete, ms) => Sync(s, complete, ms)
    case RoleEvent(authorized, id, role) => SetRole(s, authorized, id, role)
    case SaveEvent(enabled, reset) => Save(s, enabled, reset)
    case RevokeEvent => s.(sessions := map[])
    case LogoutEvent(token) => s.(sessions := s.sessions - {token})
  }

  ghost function Run(events: seq<Event>): State {
    if events == [] then INITIAL else Step(Run(events[..|events| - 1]), events[|events| - 1])
  }

  /** Each session belongs to a known active user. */
  predicate SessionsOwned(s: State) {
    forall t :: t in s.sessions ==> s.sessions[t].identity in s.users && s.users[s.sessions[t].identity].active
  }

  /** A stored role is the administrator's last decision since the reset, and viewer without one. */
  predicate RolesDecided(s: State) {
    && (forall id :: id in s.users ==> s.users[id].role == if id in s.decided then s.decided[id] else Viewer)
    && (forall id :: id in s.decided ==> id in s.users)
  }

  predicate Inv(s: State) {
    SessionsOwned(s) && RolesDecided(s) && |s.sessions| <= CAPACITY
  }

  lemma SmallerMap(a: map<Token, Session>, b: map<Token, Session>)
    requires forall t :: t in a ==> t in b
    ensures |a| <= |b|
  {
    SubsetSize(a.Keys, b.Keys);
  }

  lemma {:induction false} MemberUsersAt(users: map<Identity, User>, ms: seq<Member>, id: Identity)
    requires id in MemberUsers(users, ms)
    ensures MemberUsers(users, ms)[id].role == if id in users then users[id].role else Viewer
  {
    if ms != [] && ms[|ms| - 1].id != id {
      MemberUsersAt(users, ms[..|ms| - 1], id);
    }
  }

  /** A snapshot changes who is active, never a role. */
  lemma SyncKeepsRoles(users: map<Identity, User>, ms: seq<Member>, id: Identity)
    requires id in Synced(users, ms)
    ensures Synced(users, ms)[id].role == if id in users then users[id].role else Viewer
  {
    if id in MemberUsers(users, ms) {
      MemberUsersAt(users, ms, id);
    }
  }

  lemma SyncForgetsNobody(users: map<Identity, User>, ms: seq<Member>)
    ensures users.Keys <= Synced(users, ms).Keys
  {
  }

  predicate Within(a: map<Token, Session>, b: map<Token, Session>) {
    forall t :: t in a ==> t in b && a[t] == b[t]
  }

  lemma RemovedOne(sessions: map<Token, Session>, t: Token)
    requires t in sessions
    ensures |sessions - {t}| == |sessions| - 1 && Within(sessions - {t}, sessions)
  {
  }

  lemma AddedOne(sessions: map<Token, Session>, t: Token, v: Session)
    ensures |sessions[t := v]| <= |sessions| + 1
  {
  }

  /** A sign-in of an active user into a list with room. */
  lemma Admitted(s: State, room: map<Token, Session>, id: Identity, token: Token, v: Session)
    requires Inv(s) && Within(room, s.sessions) && |room| < CAPACITY && v.identity == id
    ensures Inv(s.(users := s.users[id := Described(s.users, id, true)], sessions := room[token := v]))
  {
    AddedOne(room, token, v);
  }

  lemma RoomyIs(sessions: map<Token, Session>)
    requires |sessions| <= CAPACITY
    ensures |Roomy(sessions)| < CAPACITY && Within(Roomy(sessions), sessions)
    ensures forall x :: x in sessions && x !in Roomy(sessions) ==> |sessions| == CAPACITY && Idlest(sessions, x)
  {
  }

  lemma LoginKeeps(s: State, a: Answer, token: Token, now: int)
    requires Inv(s)
    ensures Inv(Login(s, a, token, now))
  {
    hide Roomy, Idlest;
    var live := Fresh(s.sessions, now);
    SmallerMap(live, s.sessions);
    RoomyIs(live);
    if a.Answers? {
      hide Inv, Within;
      WithinFresh(s.sessions, now, Roomy(live));
      Admitted(s, Roomy(live), a.id, token, Session(a.id, now, now + LIFETIME, now));
    }
  }

  lemma WithinFresh(sessions: map<Token, Session>, now: int, room: map<Token, Session>)
    requires Within(room, Fresh(sessions, now))
    ensures Within(room, sessions)
  {
  }

  /** A recheck refreshes an active user that already owns the session. */
  lemma Rechecked(s: State, token: Token, v: Session)
    requires Inv(s) && token in s.sessions && s.sessions[token].identity == v.identity
    ensures Inv(s.(users := s.users[v.identity := Described(s.users, v.identity, true)],
            sessions := s.sessions[token := v]))
    ensures Inv(s.(sessions := s.sessions[token := v]))
  {
  }

  lemma UseKeeps(s: State, token: Token, permission: Option<string>, a: Answer, now: int)
    requires Inv(s)
    ensures Inv(Use(s, token, permission, a, now).state)
  {
    hide Inv, Permissions, Expired, Rechecks;
    if token in s.sessions {
      LogoutKeeps(s, token);
      var v := s.sessions[token];
      var checked := v.(checked := now);
      Rechecked(s, token, checked);
      Rechecked(s, token, v.(lastSeen := now));
      var t := s.(users := s.users[v.identity := Described(s.users, v.identity, true)],
        sessions := s.sessions[token := checked]);
      Rechecked(t, token, checked.(lastSeen := now));
    }
  }

  lemma SyncKeeps(s: State, complete: bool, ms: seq<Member>)
    requires Inv(s)
    ensures Inv(Sync(s, complete, ms))
  {
    hide Synced, Accepts;
    if Accepts(s, complete, ms) {
      var users := Synced(s.users, ms);
      SmallerMap(ActiveOnly(s.sessions, users), s.sessions);
      forall id | id in users
        ensures users[id].role == if id in s.users then s.users[id].role else Viewer
      {
        SyncKeepsRoles(s.users, ms, id);
      }
      SyncForgetsNobody(s.users, ms);
    }
  }

  lemma AdminKeeps(s: State, authorized: bool, id: Identity, role: Role)
    requires Inv(s)
    ensures Inv(SetRole(s, authorized, id, role))
  {
    SmallerMap(SetRole(s, authorized, id, role).sessions, s.sessions);
  }

  lemma LogoutKeeps(s: State, token: Token)
    requires Inv(s)
    ensures Inv(s.(sessions := s.sessions - {token}))
  {
  }

  lemma ResetKeeps(s: State, enabled: bool, reset: bool)
    requires Inv(s)
    ensures Inv(Save(s, enabled, reset)) && Inv(s.(sessions := map[]))
  {
  }

  lemma StepKeeps(s: State, e: Event)
    requires Inv(s)
    ensures Inv(Step(s, e))
  {
    hide Inv, Login, Use, Sync, SetRole, Save;
    match e
    case LoginEvent(a, token, now) => LoginKeeps(s, a, token, now);
    case UseEvent(token, permission, a, now) => UseKeeps(s, token, permission, a, now);
    case SyncEvent(complete, ms) => SyncKeeps(s, complete, ms);
    case RoleEvent(authorized, id, role) => AdminKeeps(s, authorized, id, role);
    case SaveEvent(enabled, reset) => ResetKeeps(s, enabled, reset);
    case RevokeEvent => ResetKeeps(s, false, false);
    case LogoutEvent(token) => LogoutKeeps(s, token);
  }

  /** In every reachable state: sessions of active known users only, at most 256, and decided roles. */
  lemma {:induction false} RunKeeps(events: seq<Event>)
    ensures Inv(Run(events))
  {
    hide Step;
    if events != [] {
      RunKeeps(events[..|events| - 1]);
      StepKeeps(Run(events[..|events| - 1]), events[|events| - 1]);
    }
  }

  /**
   A grant is justified: after any run, a granted request names a live session whose user is active and
   whose stored role, the administrator's decision or viewer, carries the permission.
   */
  lemma GrantsAreJustified(events: seq<Event>, token: Token, permission: string, a: Answer, now: int)
    requires Use(Run(events), token, Some(permission), a, now).granted
    ensures var s := Use(Run(events), token, Some(permission), a, now).state;
      && Run(events).enabled && token in Run(events).sessions && !Expired(Run(events).sessions[token], now)
      && token in s.sessions
      && var id := s.sessions[token].identity;
         && id in s.users && s.users[id].active
         && permission in Permissions(s.users[id].role)
         && s.users[id].role == (if id in s.decided then s.decided[id] else Viewer)
         && (permission !in READ ==> a == Answers(id, true))
  {
    hide Run;
    RunKeeps(events);
    UseKeeps(Run(events), token, Some(permission), a, now);
  }

  /** Only an administrator's role action gives a user more than reading. */
  lemma NobodyOperatesUnassigned(events: seq<Event>, id: Identity)
    requires id in Run(events).users && Run(events).users[id].role != Viewer
    ensures id in Run(events).decided && Run(events).decided[id] == Run(events).users[id].role
  {
    hide Run;
    RunKeeps(events);
  }

  // -------------------------------------------------------------- as it runs

  method FindIdlest(sessions: map<Token, Session>) returns (t: Token)
    requires |sessions| > 0
    ensures Idlest(sessions, t)
  {
    IdlestExists(sessions);
    var rest := sessions.Keys;
    t :| t in rest;
    rest := rest - {t};
    while rest != {}
      invariant t in sessions && rest <= sessions.Keys
      invariant forall x :: x in sessions && x !in rest ==> sessions[t].lastSeen <= sessions[x].lastSeen
      decreases |rest|
    {
      var x :| x in rest;
      if sessions[x].lastSeen < sessions[t].lastSeen {
        t := x;
      }
      rest := rest - {x};
    }
  }

  lemma NoMembers(users: map<Identity, User>, ms: seq<Member>)
    ensures MemberUsers(users, ms[..0]) == map[] && Distinct(ms[..0])
  {
  }

  lemma {:induction false} MembersAre(users: map<Identity, User>, ms: seq<Member>, id: Identity)
    ensures id in MemberUsers(users, ms) <==> exists j :: 0 <= j < |ms| && ms[j].id == id
  {
    hide Described;
    if ms != [] {
      var init := ms[..|ms| - 1];
      MembersAre(users, init, id);
      assert forall j :: 0 <= j < |init| ==> init[j] == ms[j];
    }
  }

  /** A member already listed spoils the whole snapshot; any other extends the membership. */
  lemma NextMember(users: map<Identity, User>, ms: seq<Member>, i: nat)
    requires i < |ms| && Distinct(ms[..i])
    ensures ms[i].id in MemberUsers(users, ms[..i]) ==> !Distinct(ms)
    ensures ms[i].id !in MemberUsers(users, ms[..i]) ==> Distinct(ms[..i + 1])
    ensures MemberUsers(users, ms[..i + 1])
            == MemberUsers(users, ms[..i])[ms[i].id := Described(users, ms[i].id, ms[i].active)]
  {
    hide Described;
    assert ms[..i + 1][..i] == ms[..i];
    MembersAre(users, ms[..i], ms[i].id);
    assert forall j :: 0 <= j < i ==> ms[..i][j] == ms[j];
  }

  /** The membership loop of `sync_directory`; a repeated identity spoils the snapshot. */
  method BuildMembers(users: map<Identity, User>, ms: seq<Member>) returns (ok: bool, next: map<Identity, User>)
    ensures ok <==> Distinct(ms)
    ensures ok ==> next == MemberUsers(users, ms)
  {
    hide MemberUsers, Distinct, Described;
    next := map[];
    NoMembers(users, ms);
    for i := 0 to |ms|
      invariant next == MemberUsers(users, ms[..i])
      invariant Distinct(ms[..i])
    {
      var row := Described(users, ms[i].id, ms[i].active);
      NextMember(users, ms, i);
      if ms[i].id in next {
        return false, next;
      }
      next := next[ms[i].id := row];
    }
    assert ms[..|ms|] == ms;
    ok := true;
  }

  /** A full list loses its longest idle session. */
  method MakeRoom(sessions: map<Token, Session>) returns (room: map<Token, Session>)
    requires |sessions| <= CAPACITY
    ensures |room| < CAPACITY && Within(room, sessions)
    ensures forall t :: t in sessions && t !in room ==> |sessions| == CAPACITY && Idlest(sessions, t)
  {
    room := sessions;
    if |sessions| >= CAPACITY {
      var idle := FindIdlest(sessions);
      RemovedOne(sessions, idle);
      room := sessions - {idle};
    }
  }

  lemma FreshIsBounded(s: State, now: int)
    requires Inv(s)
    ensures |Fresh(s.sessions, now)| <= CAPACITY
  {
    SmallerMap(Fresh(s.sessions, now), s.sessions);
  }

  /**
   A session of eight hours for the identity, whose role is kept or viewer. Other users are as they were; of the
   other sessions the expired ones are gone, and at capacity one that was idle the longest.
   */
  ghost predicate SignedIn(s: State, id: Identity, token: Token, now: int, t: State) {
    && t.enabled == s.enabled && t.decided == s.decided
    && token in t.sessions && t.sessions[token] == Session(id, now, now + 8 * 3600, now)
    && t.users.Keys == s.users.Keys + {id}
    && t.users[id] == User(if id in s.users then s.users[id].role else Viewer, true)
    && (forall other :: other in s.users && other != id ==> t.users[other] == s.users[other])
    && (forall x :: x in t.sessions && x != token ==>
          && x in s.sessions && t.sessions[x] == s.sessions[x]
          && now < t.sessions[x].expires && now < t.sessions[x].lastSeen + 1800)
    && (forall x :: x in Fresh(s.sessions, now) && x !in t.sessions ==>
          |Fresh(s.sessions, now)| == 256 && Idlest(Fresh(s.sessions, now), x))
  }

  lemma SignsIn(s: State, room: map<Token, Session>, id: Identity, token: Token, now: int)
    requires Within(room, Fresh(s.sessions, now))
    requires forall x :: x in Fresh(s.sessions, now) && x !in room ==>
               |Fresh(s.sessions, now)| == CAPACITY && Idlest(Fresh(s.sessions, now), x)
    ensures SignedIn(s, id, token, now,
                     s.(users := s.users[id := Described(s.users, id, true)],
                        sessions := room[token := Session(id, now, now + LIFETIME, now)]))
  {
    hide Within, Idlest, Fresh, Expired, Described;
    RoomIsFresh(room, s.sessions, now);
    DescribedIs(s.users, id);
  }

  lemma RoomIsFresh(room: map<Token, Session>, sessions: map<Token, Session>, now: int)
    requires Within(room, Fresh(sessions, now))
    ensures forall t :: t in room ==> t in sessions && room[t] == sessions[t]
    ensures forall t :: t in room ==> now < room[t].expires && now < room[t].lastSeen + 1800
  {
  }

  lemma DescribedIs(users: map<Identity, User>, id: Identity)
    ensures Described(users, id, true).active
    ensures Described(users, id, true).role == if id in users then users[id].role else Viewer
  {
  }

  /** The directory signs in exactly the active identities that it answers with, and changes nothing otherwise. */
  lemma LoginIs(s: State, a: Answer, token: Token, now: int)
    requires Inv(s)
    ensures if s.enabled && a.Answers? && a.active then SignedIn(s, a.id, token, now, Login(s, a, token, now))
            else Login(s, a, token, now) == s
  {
    hide Inv, Within, Idlest, Described, Fresh, Expired, SignedIn, Roomy;
    FreshIsBounded(s, now);
    RoomyIs(Fresh(s.sessions, now));
    if a.Answers? {
      SignsIn(s, Roomy(Fresh(s.sessions, now)), a.id, token, now);
    }
  }

  /** A session that has neither expired nor idled for half an hour, in an enabled directory. */
  predicate LiveSession(s: State, token: Token, now: int) {
    && s.enabled && token in s.sessions
    && now < s.sessions[token].expires && now < s.sessions[token].lastSeen + 1800
  }

  /** The directory is asked again: for anything but reading, and after thirty seconds. */
  predicate Confirmed(v: Session, permission: Option<string>, now: int) {
    || v.checked + 30 <= now
    || (permission.Some? && permission.value !in {"source.read", "run.read", "diagnostics.read"})
  }

  /** A live session, confirmed where needed, whose user's role carries the permission. */
  predicate Entitled(s: State, token: Token, permission: Option<string>, a: Answer, now: int) {
    && LiveSession(s, token, now)
    && var v := s.sessions[token];
       && v.identity in s.users
       && (Confirmed(v, permission, now) ==> a == Answers(v.identity, true))
       && (permission.Some? ==> permission.value in Permissions(s.users[v.identity].role))
  }

  /**
   A granted use is noted on the session; a refused confirmation ends it; other sessions and all roles stay.
   */
  ghost predicate Checked(s: State, token: Token, permission: Option<string>, a: Answer, now: int, granted: bool,
                          t: State) {
    && (granted && token in s.sessions ==>
          && token in t.sessions && t.sessions[token].lastSeen == now
          && t.sessions[token].identity == s.sessions[token].identity
          && t.sessions[token].expires == s.sessions[token].expires
          && t.sessions[token].checked
             == if Confirmed(s.sessions[token], permission, now) then now else s.sessions[token].checked)
    && (LiveSession(s, token, now) && Confirmed(s.sessions[token], permission, now)
        && a != Answers(s.sessions[token].identity, true) ==>
          token !in t.sessions)
    && (forall x :: x != token ==>
          && (x in t.sessions <==> x in s.sessions) && (x in t.sessions ==> t.sessions[x] == s.sessions[x]))
    && t.users.Keys == s.users.Keys
    && (forall id :: id in t.users ==> t.users[id].role == s.users[id].role)
  }

  lemma UseIsChecked(s: State, token: Token, permission: Option<string>, a: Answer, now: int)
    requires Inv(s)
    ensures var used := Use(s, token, permission, a, now);
            Checked(s, token, permission, a, now, used.granted, used.state)
  {
    hide Permissions;
  }

  lemma EntitledIsGranted(s: State, token: Token, permission: Option<string>, a: Answer, now: int)
    requires Inv(s)
    ensures Use(s, token, permission, a, now).granted <==> Entitled(s, token, permission, a, now)
  {
    hide Permissions;
  }

  /** Each role may do more than the one below it. */
  lemma RolesGrow()
    ensures Permissions(Viewer) == {"source.read", "run.read", "diagnostics.read"}
    ensures Permissions(Viewer) < Permissions(Operator) < Permissions(Admin)
    ensures Permissions(Operator) - Permissions(Viewer)
            == {"source.plan", "source.apply", "source.probe", "source.register", "source.schedule"}
    ensures "identity.manage" in Permissions(Admin) && "identity.manage" !in Permissions(Operator)
    ensures "policy.write" in Permissions(Admin) && "policy.write" !in Permissions(Operator)
  {
    assert "identity.manage" in Permissions(Admin) && "source.plan" in Permissions(Operator);
  }

  function Listed(ms: seq<Member>): set<Identity> {
    set m | m in ms :: m.id
  }

  /** A listed member has the listed state; whoever is missing stays known, inactive; roles never change. */
  lemma SyncedAre(users: map<Identity, User>, ms: seq<Member>)
    requires Distinct(ms)
    ensures Synced(users, ms).Keys == users.Keys + Listed(ms)
    ensures forall m :: m in ms ==> Synced(users, ms)[m.id].active == m.active
    ensures forall id :: id in users && id !in Listed(ms) ==> Synced(users, ms)[id] == User(users[id].role, false)
    ensures forall id :: id in Synced(users, ms) ==>
              Synced(users, ms)[id].role == if id in users then users[id].role else Viewer
  {
    hide MemberUsers, Described;
    forall id
      ensures id in MemberUsers(users, ms) <==> id in Listed(ms)
    {
      MembersAre(users, ms, id);
    }
    forall m | m in ms
      ensures m.id in Synced(users, ms) && Synced(users, ms)[m.id].active == m.active
    {
      MemberIs(users, ms, m);
    }
    forall id | id in Synced(users, ms)
      ensures Synced(users, ms)[id].role == if id in users then users[id].role else Viewer
    {
      SyncKeepsRoles(users, ms, id);
    }
  }

  /** Exactly the sessions of members listed as active stay. */
  lemma SessionsOf(s: State, ms: seq<Member>)
    requires Inv(s) && Distinct(ms)
    ensures forall t :: t in ActiveOnly(s.sessions, Synced(s.users, ms)) <==>
                        t in s.sessions && Member(s.sessions[t].identity, true) in ms
    ensures |Synced(s.users, ms)| == |s.users.Keys + Listed(ms)|
  {
    hide Synced;
    SyncedAre(s.users, ms);
    var users := Synced(s.users, ms);
    assert |users| == |users.Keys|;
    forall t | t in s.sessions
      ensures users[s.sessions[t].identity].active <==> Member(s.sessions[t].identity, true) in ms
    {
      var id := s.sessions[t].identity;
      if id in Listed(ms) {
        var m :| m in ms && m.id == id;
        assert m == Member(id, m.active);
        if Member(id, true) in ms {
          assert users[id].active;
        }
      } else {
        assert Member(id, true) !in ms;
      }
    }
  }

  lemma {:induction false} MemberIs(users: map<Identity, User>, ms: seq<Member>, m: Member)
    requires Distinct(ms) && m in ms
    ensures m.id in MemberUsers(users, ms) && MemberUsers(users, ms)[m.id].active == m.active
  {
    if ms[|ms| - 1] != m {
      MemberIs(users, ms[..|ms| - 1], m);
    }
  }

  class DirectoryAuth {
    var state: State

    constructor ()
      ensures state == INITIAL && Inv(state)
    {
      state := INITIAL;
    }

    /** `ldap_login`: prune, make room, add. */
    method SignIn(a: Answer, token: Token, now: int) returns (ok: bool)
      requires Inv(state)
      modifies this
      ensures Inv(state)
      ensures ok <==> old(state).enabled && a.Answers? && a.active
      ensures !ok ==> state == old(state)
      ensures ok ==> SignedIn(old(state), a.id, token, now, state)
    {
      ok := state.enabled && a.Answers? && a.active;
      if !ok {
        return;
      }
      hide Inv, Within, Idlest, Described, Fresh, Expired, SignedIn;
      var sessions := Fresh(state.sessions, now);
      FreshIsBounded(state, now);
      sessions := MakeRoom(sessions);
      WithinFresh(state.sessions, now, sessions);
      SignsIn(state, sessions, a.id, token, now);
      var users := state.users[a.id := Described(state.users, a.id, true)];
      Admitted(state, sessions, a.id, token, Session(a.id, now, now + LIFETIME, now));
      sessions := sessions[token := Session(a.id, now, now + LIFETIME, now)];
      state := state.(users := users, sessions := sessions);
    }

    /** `ldap_session`: the returned grant is decided on the user's stored role. */
    method Check(token: Token, permission: Option<string>, a: Answer, now: int) returns (granted: bool)
      requires Inv(state)
      modifies this
      ensures Inv(state) && state == Use(old(state), token, permission, a, now).state
      ensures granted == Use(old(state), token, permission, a, now).granted
      ensures granted <==> Entitled(old(state), token, permission, a, now)
      ensures Checked(old(state), token, permission, a, now, granted, state)
    {
      EntitledIsGranted(state, token, permission, a, now);
      UseIsChecked(state, token, permission, a, now);
      UseKeeps(state, token, permission, a, now);
      hide Entitled, Checked, Inv;
      granted := false;
      if token !in state.sessions || Expired(state.sessions[token], now) || !state.enabled {
        return;
      }
      var v := state.sessions[token];
      if v.checked + RECHECK <= now || (permission.Some? && permission.value !in READ) {
        if a.Fails? || a.id != v.identity || !a.active {
          state := state.(sessions := state.sessions - {token});
          return;
        }
        var user := Described(state.users, v.identity, true);
        state := state.(users := state.users[v.identity := user],
          sessions := state.sessions[token := v.(checked := now)]);
      }
      if v.identity !in state.users || !state.users[v.identity].active {
        return;
      }
      if permission.Some? && permission.value !in Permissions(state.users[v.identity].role) {
        return;
      }
      state := state.(sessions := state.sessions[token := state.sessions[token].(lastSeen := now)]);
      granted := true;
    }

    /** `sync_directory`. */
    method Synchronize(complete: bool, ms: seq<Member>) returns (ok: bool)
      requires Inv(state)
      modifies this
      ensures Inv(state) && state == Sync(old(state), complete, ms)
      ensures ok <==>
              && old(state).enabled && complete && |ms| <= 5000
              && (forall i, j :: 0 <= i < j < |ms| ==> ms[i].id != ms[j].id)
              && |old(state).users.Keys + Listed(ms)| <= 10000
      ensures !ok ==> state == old(state)
      ensures ok ==>
                && state.users.Keys == old(state).users.Keys + Listed(ms)
                && (forall m :: m in ms ==> state.users[m.id].active == m.active)
                && (forall id :: id in old(state).users && id !in Listed(ms) ==> !state.users[id].active)
                && (forall id :: id in state.users ==>
                      state.users[id].role == if id in old(state).users then old(state).users[id].role else Viewer)
                && (forall t :: t in state.sessions <==>
                      t in old(state).sessions && Member(old(state).sessions[t].identity, true) in ms)
                && (forall t :: t in state.sessions ==> state.sessions[t] == old(state).sessions[t])
    {
      hide MemberUsers, Inv;
      if Distinct(ms) {
        SyncedAre(state.users, ms);
        SessionsOf(state, ms);
      }
      SyncKeeps(state, complete, ms);
      ok := false;
      if !state.enabled || !complete || |ms| > MEMBERS {
        return;
      }
      var distinct, next := BuildMembers(state.users, ms);
      if !distinct {
        return;
      }
      next := next + map id | id in state.users.Keys - next.Keys :: state.users[id].(active := false);
      if |next| > USERS {
        return;
      }
      state := state.(users := next, sessions := ActiveOnly(state.sessions, next));
      ok := true;
    }

    /** A role action: the user's sessions end, and nobody else is touched. */
    method AssignRole(authorized: bool, id: Identity, role: Role) returns (ok: bool)
      requires Inv(state)
      modifies this
      ensures Inv(state) && state == SetRole(old(state), authorized, id, role)
      ensures ok <==> authorized && id in old(state).users
      ensures !ok ==> state == old(state)
      ensures ok ==>
                && state.users == old(state).users[id := User(role, old(state).users[id].active)]
                && (forall t :: t in state.sessions <==>
                      t in old(state).sessions && old(state).sessions[t].identity != id)
                && (forall t :: t in state.sessions ==> state.sessions[t] == old(state).sessions[t])
    {
      hide Inv;
      AdminKeeps(state, authorized, id, role);
      ok := authorized && id in state.users;
      if ok {
        state := state.(users := state.users[id := state.users[id].(role := role)],
                        sessions := Without(state.sessions, id), decided := state.decided[id := role]);
      }
    }

    /** Saving the directory settings ends every session; a different directory forgets its users. */
    method SaveSettings(enabled: bool, reset: bool)
      requires Inv(state)
      modifies this
      ensures Inv(state) && state == Save(old(state), enabled, reset)
      ensures state.enabled == enabled && state.sessions == map[]
      ensures state.users == if reset then map[] else old(state).users
    {
      ResetKeeps(state, enabled, reset);
      var users, decided := state.users, state.decided;
      if reset {
        users, decided := map[], map[];
      }
      state := State(enabled, users, map[], decided);
    }
  }
}
