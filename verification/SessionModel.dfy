/** The session table of internal/auth/service.go as a state machine over critical sections.

    Every event below is one stretch of code that runs under the service mutex.
    `Authenticate` drops the mutex around the user lookup, so it is two events with a
    pending stale copy between them, and any other event may come in between. */
module SessionModel {
  type TokenHash = nat
  type RequestId = nat

  /** Instants; 0 is the zero time of the platform clock, which reads later instants only. */
  type Time = int

  datatype Permissions = FullPermissions | Granted(names: set<string>)

  datatype User = User(username: string, displayName: string, isAdmin: bool, permissions: Permissions,
                       active: bool, updatedAt: Time)

  datatype Session = Session(username: string, csrf: nat, expiresAt: Time, displayName: string,
                             isAdmin: bool, permissions: Permissions, userUpdatedAt: Time)

  type Table = map<TokenHash, Session>

  /** A request between the two critical sections of `Authenticate`, with its copy of the session. */
  datatype Pending = Pending(token: TokenHash, copy: Session)

  /** `issued` remembers every token ever inserted: a random token is never drawn twice. */
  datatype State = State(sessions: Table, issued: set<TokenHash>, pending: map<RequestId, Pending>)

  const MAX_USER_SESSIONS := 20
  const MAX_SESSIONS := 10000

  const Initial := State(map[], {}, map[])

  // ---------------------------------------------------------------- table operations

  function Live(table: Table, now: Time): (live: Table) {
    map h | h in table && table[h].expiresAt > now :: table[h]
  }

  function TokensOf(table: Table, username: string): (tokens: set<TokenHash>) {
    set h | h in table && table[h].username == username
  }

  ghost predicate SubTable(after: Table, before: Table) {
    forall h | h in after :: h in before && after[h] == before[h]
  }

  /** `victims` left `before`, and none of them expires after a token of `scope` that stayed. */
  ghost predicate EvictsOldest(before: Table, after: Table, scope: set<TokenHash>) {
    && SubTable(after, before)
    && before.Keys - after.Keys <= scope
    && forall v, k | v in before.Keys - after.Keys && k in scope * after.Keys ::
         before[v].expiresAt <= before[k].expiresAt
  }

  /** Room for one more session among the tokens of `scope`, and no more evicted than that takes. */
  ghost predicate MakesRoom(before: Table, after: Table, scope: set<TokenHash>, maximum: nat)
    requires maximum > 0
  {
    && EvictsOldest(before, after, scope)
    && |scope * after.Keys| == if |scope| < maximum then |scope| else maximum - 1
  }

  /** What `Login` does under the mutex, from the pruned table to the inserted session. */
  ghost predicate InsertsWithRoom(before: Table, after: Table, now: Time, token: TokenHash, session: Session) {
    exists afterUser, afterTotal ::
      && MakesRoom(Live(before, now), afterUser, TokensOf(Live(before, now), session.username), MAX_USER_SESSIONS)
      && MakesRoom(afterUser, afterTotal, afterUser.Keys, MAX_SESSIONS)
      && after == afterTotal[token := session]
  }

  function WithProfile(session: Session, user: User): (updated: Session) {
    session.(displayName := user.displayName, isAdmin := user.isAdmin,
             permissions := if user.isAdmin then FullPermissions else user.permissions)
  }

  ghost predicate SameIdentity(a: Session, b: Session) {
    a.username == b.username && a.csrf == b.csrf && a.expiresAt == b.expiresAt
  }

  /** Does the user record make `Authenticate` revoke the session instead of renewing its profile? */
  predicate Outdated(session: Session, user: User) {
    !user.active || user.updatedAt > session.userUpdatedAt
  }

  // ---------------------------------------------------------------- events

  datatype Event =
    | LoginInsert(now: Time, token: TokenHash, session: Session)
    | AuthenticateLookup(request: RequestId, token: TokenHash, now: Time)
    | AuthenticateRevoke(request: RequestId)
    | AuthenticateAbandon(request: RequestId)
    | AuthenticateCommit(request: RequestId, user: User)
    | RefreshSession(token: TokenHash, user: User, now: Time)
    | LogoutToken(token: TokenHash)
    | PruneExpired(now: Time)

  ghost predicate Next(s: State, e: Event, s': State) {
    match e
    case LoginInsert(now, token, session) =>
      && now >= 0 && token !in s.issued
      && InsertsWithRoom(s.sessions, s'.sessions, now, token, session)
      && s'.issued == s.issued + {token}
      && s'.pending == s.pending
    case AuthenticateLookup(request, token, now) =>
      && request !in s.pending
      && if token in s.sessions && s.sessions[token].expiresAt > now
         then s' == s.(pending := s.pending[request := Pending(token, s.sessions[token])])
         else s' == s.(sessions := s.sessions - {token})
    case AuthenticateRevoke(request) =>
      && request in s.pending
      && s' == State(s.sessions - {s.pending[request].token}, s.issued, s.pending - {request})
    case AuthenticateAbandon(request) =>
      && request in s.pending
      && s' == s.(pending := s.pending - {request})
    case AuthenticateCommit(request, user) =>
      && request in s.pending && !Outdated(s.pending[request].copy, user)
      && var p := s.pending[request];
         s' == State(if p.token in s.sessions then s.sessions[p.token := WithProfile(p.copy, user)] else s.sessions,
                     s.issued, s.pending - {request})
    case RefreshSession(token, user, now) =>
      if token in s.sessions && s.sessions[token].username == user.username && s.sessions[token].expiresAt > now
      then s' == s.(sessions := s.sessions[token := WithProfile(s.sessions[token], user).(userUpdatedAt := user.updatedAt)])
      else s' == s
    case LogoutToken(token) => s' == s.(sessions := s.sessions - {token})
    case PruneExpired(now) => s' == s.(sessions := Live(s.sessions, now))
  }

  ghost predicate IsRun(run: seq<State>, events: seq<Event>) {
    && |run| == |events| + 1
    && run[0] == Initial
    && forall i | 0 <= i < |events| :: Next(run[i], events[i], run[i + 1])
  }

  // ---------------------------------------------------------------- the invariant of every run

  ghost predicate Bounded(table: Table) {
    && |table| <= MAX_SESSIONS
    && forall username: string :: |TokensOf(table, username)| <= MAX_USER_SESSIONS
  }

  /** A stale copy names an issued token and agrees on identity with the row it was copied from,
      for as long as that row exists. */
  ghost predicate Linked(s: State) {
    && s.sessions.Keys <= s.issued
    && (forall r | r in s.pending :: s.pending[r].token in s.issued)
    && (forall r | r in s.pending && s.pending[r].token in s.sessions ::
          SameIdentity(s.pending[r].copy, s.sessions[s.pending[r].token]))
  }

  ghost predicate Inv(s: State) {
    Linked(s) && Bounded(s.sessions)
  }

  /** What one event may do to the session table, seen from any token issued before it. */
  ghost predicate Stable(s: State, s': State) {
    && s.issued <= s'.issued
    && (forall h | h in s.issued && h in s'.sessions ::
          h in s.sessions && SameIdentity(s.sessions[h], s'.sessions[h]))
  }

  lemma TokensOfSub(after: Table, before: Table, username: string)
    requires forall h | h in after :: h in before && after[h].username == before[h].username
    ensures |TokensOf(after, username)| <= |TokensOf(before, username)|
  {
    SubsetCardinality(TokensOf(after, username), TokensOf(before, username));
  }

  lemma SubsetCardinality<T>(a: set<T>, b: set<T>)
    requires a <= b
    ensures |a| <= |b|
  {
    assert b == a + (b - a);
  }

  lemma BoundedSub(after: Table, before: Table)
    requires Bounded(before)
    requires forall h | h in after :: h in before && after[h].username == before[h].username
    ensures Bounded(after)
  {
    assert after.Keys <= before.Keys;
    SubsetCardinality(after.Keys, before.Keys);
    assert |after| == |after.Keys| && |before| == |before.Keys|;
    forall username: string ensures |TokensOf(after, username)| <= MAX_USER_SESSIONS {
      TokensOfSub(after, before, username);
    }
  }

  lemma RoomBoundsUser(live: Table, afterUser: Table, afterTotal: Table, username: string)
    requires MakesRoom(live, afterUser, TokensOf(live, username), MAX_USER_SESSIONS)
    requires SubTable(afterTotal, afterUser)
    ensures |TokensOf(afterTotal, username)| < MAX_USER_SESSIONS
  {
    assert TokensOf(afterUser, username) == TokensOf(live, username) * afterUser.Keys;
    TokensOfSub(afterTotal, afterUser, username);
  }

  lemma AddToken(table: Table, token: TokenHash, session: Session)
    requires Bounded(table) && |table| < MAX_SESSIONS
    requires |TokensOf(table, session.username)| < MAX_USER_SESSIONS
    ensures Bounded(table[token := session])
  {
    var after := table[token := session];
    assert after.Keys == table.Keys + {token};
    assert |after| == |after.Keys| && |table| == |table.Keys|;
    forall username: string ensures |TokensOf(after, username)| <= MAX_USER_SESSIONS {
      if username == session.username {
        assert TokensOf(after, username) == TokensOf(table, username) + {token};
      } else {
        SubsetCardinality(TokensOf(after, username), TokensOf(table, username));
      }
    }
  }

  /** The two stages of a login, before the insertion. */
  lemma StagesKeepBounds(live: Table, afterUser: Table, afterTotal: Table, username: string)
    requires Bounded(live)
    requires MakesRoom(live, afterUser, TokensOf(live, username), MAX_USER_SESSIONS)
    requires MakesRoom(afterUser, afterTotal, afterUser.Keys, MAX_SESSIONS)
    ensures Bounded(afterTotal) && SubTable(afterTotal, live)
    ensures |TokensOf(afterTotal, username)| < MAX_USER_SESSIONS && |afterTotal| < MAX_SESSIONS
  {
    RoomBoundsUser(live, afterUser, afterTotal, username);
    assert SubTable(afterTotal, live);
    BoundedSub(afterTotal, live);
    assert afterUser.Keys * afterTotal.Keys == afterTotal.Keys && |afterTotal| == |afterTotal.Keys|;
  }

  /** Eviction before insertion leaves at most 20 sessions a user and 10000 in all. */
  lemma InsertKeepsBounds(before: Table, after: Table, now: Time, token: TokenHash, session: Session)
    requires Bounded(before)
    requires InsertsWithRoom(before, after, now, token, session)
    ensures Bounded(after)
  {
    var live := Live(before, now);
    var afterUser, afterTotal :|
      && MakesRoom(live, afterUser, TokensOf(live, session.username), MAX_USER_SESSIONS)
      && MakesRoom(afterUser, afterTotal, afterUser.Keys, MAX_SESSIONS)
      && after == afterTotal[token := session];
    BoundedSub(live, before);
    StagesKeepBounds(live, afterUser, afterTotal, session.username);
    AddToken(afterTotal, token, session);
  }

  lemma InsertOnlyAdds(before: Table, after: Table, now: Time, token: TokenHash, session: Session)
    requires InsertsWithRoom(before, after, now, token, session)
    ensures token in after && after[token] == session
    ensures forall h | h in after && h != token :: h in before && after[h] == before[h]
  {
  }

  lemma StepKeepsBounds(s: State, e: Event, s': State)
    requires Bounded(s.sessions) && Next(s, e, s')
    requires e.AuthenticateCommit? && s.pending[e.request].token in s.sessions ==>
      SameIdentity(s.pending[e.request].copy, s.sessions[s.pending[e.request].token])
    ensures Bounded(s'.sessions)
  {
    if e.LoginInsert? {
      InsertKeepsBounds(s.sessions, s'.sessions, e.now, e.token, e.session);
    } else {
      BoundedSub(s'.sessions, s.sessions);
    }
  }

  lemma InsertIsStable(s: State, e: Event, s': State)
    requires Inv(s) && Next(s, e, s') && e.LoginInsert?
    ensures Stable(s, s') && Linked(s')
  {
    InsertOnlyAdds(s.sessions, s'.sessions, e.now, e.token, e.session);
  }

  lemma WriteIsStable(s: State, e: Event, s': State)
    requires Inv(s) && Next(s, e, s') && (e.AuthenticateCommit? || e.RefreshSession?)
    ensures Stable(s, s') && Linked(s')
  {
  }

  lemma OtherIsStable(s: State, e: Event, s': State)
    requires Inv(s) && Next(s, e, s') && !e.LoginInsert? && !e.AuthenticateCommit? && !e.RefreshSession?
    ensures Stable(s, s') && Linked(s')
  {
    assert forall h | h in s'.sessions :: h in s.sessions && s'.sessions[h] == s.sessions[h];
  }

  lemma StepKeepsInv(s: State, e: Event, s': State)
    requires Inv(s) && Next(s, e, s')
    ensures Inv(s') && Stable(s, s')
  {
    StepKeepsBounds(s, e, s');
    if e.LoginInsert? {
      InsertIsStable(s, e, s');
    } else if e.AuthenticateCommit? || e.RefreshSession? {
      WriteIsStable(s, e, s');
    } else {
      OtherIsStable(s, e, s');
    }
  }

  lemma {:induction false} RunKeepsInv(run: seq<State>, events: seq<Event>, i: nat)
    requires IsRun(run, events) && i < |run|
    ensures Inv(run[i])
  {
    if i == 0 {
      assert forall username: string :: TokensOf(Initial.sessions, username) == {};
    } else {
      RunKeepsInv(run, events, i - 1);
      StepKeepsInv(run[i - 1], events[i - 1], run[i]);
    }
  }

  lemma {:induction false} RunIsStable(run: seq<State>, events: seq<Event>, i: nat, j: nat)
    requires IsRun(run, events) && i <= j < |run|
    ensures Stable(run[i], run[j])
  {
    if i < j {
      RunIsStable(run, events, i, j - 1);
      RunKeepsInv(run, events, j - 1);
      StepKeepsInv(run[j - 1], events[j - 1], run[j]);
    }
  }

  /** At most 20 sessions a user and 10000 sessions in all, in every state of every interleaving. */
  lemma SessionBounds(run: seq<State>, events: seq<Event>, i: nat, username: string)
    requires IsRun(run, events) && i < |run|
    ensures |set h | h in run[i].sessions && run[i].sessions[h].username == username| <= 20
    ensures |run[i].sessions| <= 10000
  {
    RunKeepsInv(run, events, i);
    assert TokensOf(run[i].sessions, username) == set h | h in run[i].sessions && run[i].sessions[h].username == username;
  }

  /** A token that was issued and is gone never comes back, whatever a stale `Authenticate` writes. */
  lemma NoResurrection(run: seq<State>, events: seq<Event>, i: nat, j: nat, token: TokenHash)
    requires IsRun(run, events) && i <= j < |run|
    requires token in run[i].issued && token !in run[i].sessions
    ensures token !in run[j].sessions
  {
    RunIsStable(run, events, i, j);
  }

  /** The user name, the CSRF token and the expiry of a session never change. */
  lemma IdentityIsFixed(run: seq<State>, events: seq<Event>, i: nat, j: nat, token: TokenHash)
    requires IsRun(run, events) && i <= j < |run|
    requires token in run[i].sessions && token in run[j].sessions
    ensures run[j].sessions[token].username == run[i].sessions[token].username
    ensures run[j].sessions[token].csrf == run[i].sessions[token].csrf
    ensures run[j].sessions[token].expiresAt == run[i].sessions[token].expiresAt
  {
    RunKeepsInv(run, events, i);
    RunIsStable(run, events, i, j);
  }

  /** A token never outlives its expiry in use: a lookup after that instant finds it gone for good. */
  lemma ExpiredLookupIsFinal(run: seq<State>, events: seq<Event>, i: nat, j: nat, request: RequestId,
                             token: TokenHash, now: Time)
    requires IsRun(run, events) && i < j < |run|
    requires events[i] == AuthenticateLookup(request, token, now)
    requires token in run[i].sessions && run[i].sessions[token].expiresAt <= now
    ensures token !in run[j].sessions
  {
    RunKeepsInv(run, events, i);
    RunIsStable(run, events, i + 1, j);
  }

  // ---------------------------------------------------------------- whose rights a session has

  predicate RightsOf(user: User, session: Session) {
    && session.displayName == user.displayName && session.isAdmin == user.isAdmin
    && session.permissions == if user.isAdmin then FullPermissions else user.permissions
  }

  /** This event gave the session under this token the name and the rights it has. */
  predicate GivesRights(s: State, e: Event, token: TokenHash, session: Session) {
    match e
    case LoginInsert(_, inserted, made) => inserted == token && made == session
    case AuthenticateCommit(request, user) => request in s.pending && s.pending[request].token == token && RightsOf(user, session)
    case RefreshSession(refreshed, user, _) => refreshed == token && RightsOf(user, session)
    case _ => false
  }

  lemma RightsAreGiven(s: State, e: Event, s': State, token: TokenHash)
    requires Next(s, e, s') && token in s'.sessions
    ensures (token in s.sessions && s'.sessions[token] == s.sessions[token]) || GivesRights(s, e, token, s'.sessions[token])
  {
    if e.LoginInsert? {
      InsertOnlyAdds(s.sessions, s'.sessions, e.now, e.token, e.session);
    }
  }

  /** Every session has the name and the rights of the user record that its login, or a later commit or refresh under its
      token, carried. */
  lemma {:induction false} RightsHaveASource(run: seq<State>, events: seq<Event>, i: nat, token: TokenHash) returns (k: nat)
    requires IsRun(run, events) && i < |run| && token in run[i].sessions
    ensures k < i && GivesRights(run[k], events[k], token, run[i].sessions[token])
  {
    var before, after := run[i - 1], run[i];
    if token in before.sessions && before.sessions[token] == after.sessions[token] {
      k := RightsHaveASource(run, events, i - 1, token);
    } else {
      k := i - 1;
      RightsAreGiven(before, events[k], after, token);
    }
  }

  /** A user record that makes a session of this name an administrator's. */
  predicate CarriesAdmin(s: State, e: Event, username: string) {
    match e
    case LoginInsert(_, _, session) => session.username == username && session.isAdmin
    case AuthenticateCommit(request, user) => request in s.pending && s.pending[request].copy.username == username && user.isAdmin
    case RefreshSession(_, user, _) => user.username == username && user.isAdmin
    case _ => false
  }

  /** While no record of a user is an administrator's, none of the user's sessions is, in any interleaving. */
  lemma {:induction false} NobodyBecomesAdmin(run: seq<State>, events: seq<Event>, i: nat, username: string)
    requires IsRun(run, events) && i < |run|
    requires forall k | 0 <= k < i :: !CarriesAdmin(run[k], events[k], username)
    ensures forall h | h in run[i].sessions && run[i].sessions[h].username == username :: !run[i].sessions[h].isAdmin
  {
    if i > 0 {
      NobodyBecomesAdmin(run, events, i - 1, username);
      assert !CarriesAdmin(run[i - 1], events[i - 1], username);
      AdminStep(run[i - 1], events[i - 1], run[i], username);
    }
  }

  lemma AdminStep(s: State, e: Event, s': State, username: string)
    requires Next(s, e, s') && !CarriesAdmin(s, e, username)
    requires forall h | h in s.sessions && s.sessions[h].username == username :: !s.sessions[h].isAdmin
    ensures forall h | h in s'.sessions && s'.sessions[h].username == username :: !s'.sessions[h].isAdmin
  {
    if e.LoginInsert? {
      InsertOnlyAdds(s.sessions, s'.sessions, e.now, e.token, e.session);
    }
  }

  // ---------------------------------------------------------------- the lost profile refresh

  ghost predicate Continues(s: State, run: seq<State>, events: seq<Event>) {
    && |run| == |events| + 1
    && run[0] == s
    && forall i | 0 <= i < |events| :: Next(run[i], events[i], run[i + 1])
  }

  predicate Refreshes(e: Event, token: TokenHash) { e.RefreshSession? && e.token == token }

  predicate HasStamp(s: State, token: TokenHash, stamp: Time) {
    token in s.sessions ==> s.sessions[token].userUpdatedAt == stamp
  }

  /** Every request in flight for this token took its copy with this stamp. */
  predicate CopiesHaveStamp(s: State, token: TokenHash, stamp: Time) {
    forall r | r in s.pending && s.pending[r].token == token :: s.pending[r].copy.userUpdatedAt == stamp
  }

  lemma StepKeepsStamp(s: State, e: Event, s': State, token: TokenHash, stamp: Time)
    requires Inv(s) && Next(s, e, s') && !Refreshes(e, token) && token in s.issued
    requires HasStamp(s, token, stamp) && CopiesHaveStamp(s, token, stamp)
    ensures HasStamp(s', token, stamp) && CopiesHaveStamp(s', token, stamp)
  {
    if e.LoginInsert? {
      InsertOnlyAdds(s.sessions, s'.sessions, e.now, e.token, e.session);
    }
  }

  lemma {:induction false} ContinuationKeepsStamp(s: State, run: seq<State>, events: seq<Event>, n: nat, token: TokenHash, stamp: Time)
    requires Inv(s) && Continues(s, run, events) && n <= |events| && token in s.issued
    requires forall e | e in events :: !Refreshes(e, token)
    requires HasStamp(s, token, stamp) && CopiesHaveStamp(s, token, stamp)
    ensures Inv(run[n]) && token in run[n].issued && HasStamp(run[n], token, stamp) && CopiesHaveStamp(run[n], token, stamp)
  {
    if n > 0 {
      ContinuationKeepsStamp(s, run, events, n - 1, token, stamp);
      assert events[n - 1] in events;
      StepKeepsInv(run[n - 1], events[n - 1], run[n]);
      StepKeepsStamp(run[n - 1], events[n - 1], run[n], token, stamp);
    }
  }

  /** The user record did not change since the lookup of this request, so its commit goes ahead. */
  lemma StaleCommitUndoes(s: State, request: RequestId, token: TokenHash, stamp: Time)
    requires request in s.pending && s.pending[request].token == token && token in s.sessions
    requires s.pending[request].copy.userUpdatedAt != stamp
    ensures exists run, events ::
      Continues(s, run, events) && (forall e | e in events :: !Refreshes(e, token)) && !HasStamp(run[|events|], token, stamp)
  {
    var copy := s.pending[request].copy;
    var user := User(copy.username, copy.displayName, copy.isAdmin, copy.permissions, true, copy.userUpdatedAt);
    var s' := State(s.sessions[token := WithProfile(copy, user)], s.issued, s.pending - {request});
    var run, events := [s, s'], [AuthenticateCommit(request, user)];
    assert Next(run[0], events[0], run[1]);
    assert Continues(s, run, events);
  }

  /** A refresh is meant to keep its caller signed in. In every continuation in which nobody refreshes this session
      again its new stamp stays, exactly if no request in flight at the refresh holds a copy with another stamp. */
  lemma RefreshSurvivesExactly(run: seq<State>, events: seq<Event>, i: nat, token: TokenHash, user: User, now: Time)
    requires IsRun(run, events) && i < |events| && events[i] == RefreshSession(token, user, now)
    requires token in run[i].sessions && run[i].sessions[token].username == user.username
    requires run[i].sessions[token].expiresAt > now
    ensures CopiesHaveStamp(run[i], token, user.updatedAt) <==>
      forall later, after | Continues(run[i + 1], later, after) && (forall e | e in after :: !Refreshes(e, token)) ::
        HasStamp(later[|after|], token, user.updatedAt)
  {
    RunKeepsInv(run, events, i);
    RunKeepsInv(run, events, i + 1);
    if CopiesHaveStamp(run[i], token, user.updatedAt) {
      forall later, after | Continues(run[i + 1], later, after) && (forall e | e in after :: !Refreshes(e, token))
        ensures HasStamp(later[|after|], token, user.updatedAt)
      {
        ContinuationKeepsStamp(run[i + 1], later, after, |after|, token, user.updatedAt);
      }
    } else {
      var r :| r in run[i].pending && run[i].pending[r].token == token && run[i].pending[r].copy.userUpdatedAt != user.updatedAt;
      StaleCommitUndoes(run[i + 1], r, token, user.updatedAt);
    }
  }

  lemma FirstLogin(now: Time, token: TokenHash, session: Session)
    requires now >= 0
    ensures Next(Initial, LoginInsert(now, token, session), State(map[token := session], {token}, map[]))
  {
    var empty: Table := map[];
    assert Live(empty, now) == empty && TokensOf(empty, session.username) == {};
    assert MakesRoom(empty, empty, {}, MAX_USER_SESSIONS);
    assert MakesRoom(empty, empty, empty.Keys, MAX_SESSIONS);
    assert InsertsWithRoom(empty, empty[token := session], now, token, session);
  }

  /** The refresh promises to keep its caller signed in. A lookup before the refresh and the matching
      commit after it undo the stamp, and the next request revokes the session of an unchanged user. */
  lemma RefreshCanBeLost(login: Session, stored: User, updated: User, now: Time)
    requires 0 <= now < login.expiresAt
    requires stored.username == updated.username == login.username && stored.active && updated.active
    requires stored.updatedAt == login.userUpdatedAt < updated.updatedAt
    ensures exists s1: State, s2: State, s3: State, s4: State ::
      && Next(Initial, LoginInsert(now, 7, login), s1)
      && Next(s1, AuthenticateLookup(1, 7, now), s2)
      && Next(s2, RefreshSession(7, updated, now), s3)
      && Next(s3, AuthenticateCommit(1, stored), s4)
      && 7 in s3.sessions && !Outdated(s3.sessions[7], updated)
      && 7 in s4.sessions && Outdated(s4.sessions[7], updated)
  {
    var s1 := State(map[7 := login], {7}, map[]);
    var s2 := s1.(pending := map[1 := Pending(7, login)]);
    var s3 := s2.(sessions := s2.sessions[7 := WithProfile(login, updated).(userUpdatedAt := updated.updatedAt)]);
    var s4 := State(s3.sessions[7 := WithProfile(login, stored)], {7}, map[]);
    FirstLogin(now, 7, login);
    assert s4.pending == s3.pending - {1};
    assert Next(s1, AuthenticateLookup(1, 7, now), s2);
    assert Next(s2, RefreshSession(7, updated, now), s3);
    assert Next(s3, AuthenticateCommit(1, stored), s4);
  }
}
