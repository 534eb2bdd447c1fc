/** The service object of internal/auth/service.go. Its methods update the two tables in place and are
    proved against the events of SessionModel and the table functions of Lockout. */
module AuthService {
  import opened SessionModel
  import Lockout

  /** What the user store answers. `NotExist` is the only answer that proves an account is gone. */
  datatype Lookup = UserFound(user: User, passwordHash: string) | NotExist | Unavailable

  datatype Answer = Granted(session: Session) | Unauthenticated | LookupFailed

  datatype LoginAnswer = LoggedIn(session: Session) | InvalidCredentials | Canceled | NoRandomness

  datatype Randomness = Drawn(value: nat) | Exhausted

  const VERIFY_SLOTS := 4

  /** The administrator of a service without a user store. */
  datatype Admin = Admin(username: string, passwordHash: string)

  ghost predicate NoZeroExpiry(table: Table) {
    forall h | h in table :: table[h].expiresAt > 0
  }

  /** Which password hash decides a login as `username`, if any does. */
  function DecidingHash(admin: Admin, hasUsers: bool, lookup: Lookup, username: string): (hash: Lookup) {
    if hasUsers then
      if lookup.UserFound? && lookup.user.active then lookup else NotExist
    else if username == admin.username then
      UserFound(User(admin.username, admin.username, true, FullPermissions, true, 0), admin.passwordHash)
    else NotExist
  }

  function CorrectPassword(admin: Admin, hasUsers: bool, lookup: Lookup, username: string, password: string,
                           verify: (string, string) -> bool): (correct: bool) {
    var decided := DecidingHash(admin, hasUsers, lookup, username);
    decided.UserFound? && verify(decided.passwordHash, password)
  }

  lemma OneLess(scope: set<TokenHash>, rest: set<TokenHash>, h: TokenHash)
    requires h in rest
    ensures |scope * rest| == |scope * (rest - {h})| + if h in scope then 1 else 0
  {
    assert scope * rest == scope * (rest - {h}) + if h in scope then {h} else {};
  }

  /** How many sessions `username` has, and one of them that expires first. */
  method OldestOfUser(table: Table, username: string) returns (count: nat, oldestHash: TokenHash)
    requires NoZeroExpiry(table)
    ensures count == |TokensOf(table, username)|
    ensures count > 0 ==> oldestHash in TokensOf(table, username)
    ensures forall h | h in TokensOf(table, username) :: table[oldestHash].expiresAt <= table[h].expiresAt
  {
    count, oldestHash := 0, 0;
    var oldest := 0;
    var rest := table.Keys;
    ghost var scope := TokensOf(table, username);
    assert scope * rest == scope;
    while rest != {}
      invariant rest <= table.Keys
      invariant count + |scope * rest| == |scope|
      invariant count == 0 ==> oldest == 0
      invariant count > 0 ==> oldestHash in scope && oldest == table[oldestHash].expiresAt > 0
      invariant forall h | h in scope && h !in rest :: count > 0 && oldest <= table[h].expiresAt
      decreases rest
    {
      var h :| h in rest;
      OneLess(scope, rest, h);
      rest := rest - {h};
      if table[h].username == username {
        count := count + 1;
        if oldest == 0 || table[h].expiresAt < oldest {
          oldest, oldestHash := table[h].expiresAt, h;
        }
      }
    }
    assert scope * rest == {};
  }

  method OldestOfAll(table: Table) returns (oldestHash: TokenHash)
    requires NoZeroExpiry(table) && table.Keys != {}
    ensures oldestHash in table
    ensures forall h | h in table :: table[oldestHash].expiresAt <= table[h].expiresAt
  {
    oldestHash := 0;
    var oldest := 0;
    var rest := table.Keys;
    while rest != {}
      invariant rest <= table.Keys
      invariant rest == table.Keys ==> oldest == 0
      invariant rest != table.Keys ==> oldestHash in table && oldest == table[oldestHash].expiresAt > 0
      invariant forall h | h in table.Keys - rest :: oldest <= table[h].expiresAt
      decreases rest
    {
      var h :| h in rest;
      rest := rest - {h};
      if oldest == 0 || table[h].expiresAt < oldest {
        oldest, oldestHash := table[h].expiresAt, h;
      }
    }
  }

  class Service {
    const admin: Admin
    const hasUsers: bool
    const ttl: int
    const policy: Lockout.Policy

    var sessions: Table
    var attempts: Lockout.Attempts
    var busySlots: nat

    /** Every token ever inserted, and the requests between the two halves of `Authenticate`. */
    ghost var issued: set<TokenHash>
    ghost var pending: map<RequestId, Pending>

    ghost function View(): State
      reads this
    {
      State(sessions, issued, pending)
    }

    constructor (admin: Admin, hasUsers: bool, ttl: int, policy: Lockout.Policy)
      ensures View() == Initial && attempts == map[] && busySlots == 0
      ensures this.admin == admin && this.hasUsers == hasUsers && this.ttl == ttl && this.policy == policy
    {
      this.admin, this.hasUsers, this.ttl, this.policy := admin, hasUsers, ttl, policy;
      sessions, attempts, busySlots := map[], map[], 0;
      issued, pending := {}, map[];
    }

    // -------------------------------------------------------------- helpers that run under the mutex

    method PruneLocked(now: Time)
      modifies this`sessions, this`attempts
      ensures sessions == Live(old(sessions), now)
      ensures attempts == Lockout.Pruned(policy, old(attempts), now)
      ensures forall h | h in old(sessions) :: h in sessions <==> old(sessions)[h].expiresAt > now
      ensures forall k | k in old(attempts) :: k !in attempts <==>
        old(attempts)[k].blockedUntil <= now && now - old(attempts)[k].windowStart > policy.window + policy.lockout
      ensures (forall h | h in sessions :: h in old(sessions) && sessions[h] == old(sessions)[h])
           && (forall k | k in attempts :: k in old(attempts) && attempts[k] == old(attempts)[k])
    {
      var before := sessions;
      var hashes := before.Keys;
      while hashes != {}
        invariant hashes <= before.Keys && attempts == old(attempts)
        invariant sessions == map h | h in before && (h in hashes || before[h].expiresAt > now) :: before[h]
        decreases hashes
      {
        var h :| h in hashes;
        hashes := hashes - {h};
        if before[h].expiresAt <= now {
          sessions := sessions - {h};
        }
      }
      var rows := attempts;
      var keys := rows.Keys;
      while keys != {}
        invariant keys <= rows.Keys
        invariant sessions == Live(before, now)
        invariant attempts == map k | k in rows && (k in keys || !Lockout.Stale(policy, rows[k], now)) :: rows[k]
        decreases keys
      {
        var k :| k in keys;
        keys := keys - {k};
        if rows[k].blockedUntil <= now && now - rows[k].windowStart > policy.window + policy.lockout {
          attempts := attempts - {k};
        }
      }
    }

    method LimitUserSessionsLocked(username: string, maximum: nat)
      requires maximum > 0 && NoZeroExpiry(sessions)
      modifies this`sessions
      ensures MakesRoom(old(sessions), sessions, TokensOf(old(sessions), username), maximum)
    {
      ghost var before, scope := sessions, TokensOf(sessions, username);
      assert scope * sessions.Keys == scope;
      while true
        invariant EvictsOldest(before, sessions, scope)
        invariant |scope * sessions.Keys| >= if |scope| < maximum then |scope| else maximum - 1
        decreases |sessions.Keys|
      {
        var count, oldest := OldestOfUser(sessions, username);
        assert TokensOf(sessions, username) == scope * sessions.Keys;
        if count < maximum {
          SubsetCardinality(scope * sessions.Keys, scope);
          return;
        }
        EvictOneMore(before, sessions, scope, oldest);
        sessions := sessions - {oldest};
      }
    }

    method LimitTotalSessionsLocked(maximum: nat)
      requires maximum > 0 && NoZeroExpiry(sessions)
      modifies this`sessions
      ensures MakesRoom(old(sessions), sessions, old(sessions).Keys, maximum)
    {
      ghost var before, scope := sessions, sessions.Keys;
      assert scope * sessions.Keys == scope;
      while |sessions.Keys| >= maximum
        invariant EvictsOldest(before, sessions, scope)
        invariant scope * sessions.Keys == sessions.Keys
        invariant |sessions.Keys| >= if |scope| < maximum then |scope| else maximum - 1
        decreases |sessions.Keys|
      {
        var oldest := OldestOfAll(sessions);
        EvictOneMore(before, sessions, scope, oldest);
        sessions := sessions - {oldest};
      }
      SubsetCardinality(sessions.Keys, scope);
    }

    /** The critical section of `Login`. */
    method InsertLocked(now: Time, token: TokenHash, session: Session)
      requires now >= 0
      modifies this`sessions, this`attempts
      ensures InsertsWithRoom(old(sessions), sessions, now, token, session)
      ensures attempts == Lockout.Pruned(policy, old(attempts), now)
    {
      PruneLocked(now);
      ghost var live := sessions;
      LimitUserSessionsLocked(session.username, MAX_USER_SESSIONS);
      ghost var afterUser := sessions;
      LimitTotalSessionsLocked(MAX_SESSIONS);
      ghost var afterTotal := sessions;
      sessions := sessions[token := session];
      assert MakesRoom(live, afterUser, TokensOf(live, session.username), MAX_USER_SESSIONS);
      assert MakesRoom(afterUser, afterTotal, afterUser.Keys, MAX_SESSIONS);
    }

    method RecordFailure(key: string, now: Time)
      modifies this`sessions, this`attempts
      ensures attempts == Lockout.Pruned(policy, Lockout.Recorded(policy, old(attempts), key, now), now)
      ensures sessions == Live(old(sessions), now)
      ensures Lockout.ValidPolicy(policy) ==> key in attempts
      ensures key in attempts ==>
        var reopened := key !in old(attempts) || old(attempts)[key].windowStart == 0 || now - old(attempts)[key].windowStart > policy.window;
        && attempts[key].count == (if reopened then 1 else old(attempts)[key].count + 1)
        && attempts[key].windowStart == (if reopened then now else old(attempts)[key].windowStart)
        && attempts[key].blockedUntil == (if attempts[key].count >= policy.maxAttempts then now + policy.lockout
             else if reopened then 0 else old(attempts)[key].blockedUntil)
    {
      var attempt := if key in attempts then attempts[key] else Lockout.NoAttempt;
      if attempt.windowStart == 0 || now - attempt.windowStart > policy.window {
        attempt := Lockout.Attempt(0, now, 0);
      }
      attempt := attempt.(count := attempt.count + 1);
      if attempt.count >= policy.maxAttempts {
        attempt := attempt.(blockedUntil := now + policy.lockout);
      }
      attempts := attempts[key := attempt];
      PruneLocked(now);
    }

    // -------------------------------------------------------------- requests

    method Login(now: Time, slot: bool, lookup: Lookup, username: string, password: string,
                 verify: (string, string) -> bool, token: Randomness, csrf: Randomness) returns (answer: LoginAnswer)
      requires now >= 0 && (token.Drawn? ==> token.value !in issued)
      modifies this
      ensures answer.LoggedIn? <==>
        slot && |username| <= 64 && |password| <= 256 && token.Drawn? && csrf.Drawn?
        && (if hasUsers then lookup.UserFound? && lookup.user.active && verify(lookup.passwordHash, password)
            else username == admin.username && verify(admin.passwordHash, password))
      ensures answer.LoggedIn? ==>
        && Next(old(View()), LoginInsert(now, token.value, answer.session), View())
        && answer.session.csrf == csrf.value && answer.session.expiresAt == now + ttl
        && (hasUsers ==> answer.session.username == lookup.user.username && answer.session.userUpdatedAt == lookup.user.updatedAt)
        && (!hasUsers ==> answer.session.username == admin.username && answer.session.isAdmin)
        && answer.session.displayName == (if hasUsers then lookup.user.displayName else admin.username)
        && (hasUsers ==> answer.session.isAdmin == lookup.user.isAdmin)
        && answer.session.permissions == (if hasUsers && !lookup.user.isAdmin then lookup.user.permissions else FullPermissions)
        && token.value in sessions && sessions[token.value] == answer.session
        && attempts == Lockout.Pruned(policy, old(attempts), now)
      ensures answer.Canceled? <==> !slot
      ensures answer.NoRandomness? ==> token.Exhausted? || csrf.Exhausted?
      ensures answer.InvalidCredentials? ==>
        || |username| > 64 || |password| > 256
        || if hasUsers then !lookup.UserFound? || !lookup.user.active || !verify(lookup.passwordHash, password)
           else username != admin.username || !verify(admin.passwordHash, password)
      ensures !answer.LoggedIn? ==> View() == old(View()) && attempts == old(attempts)
      ensures busySlots == old(busySlots)
    {
      if !slot {
        return Canceled;
      }
      var decided := DecidingHash(admin, hasUsers, lookup, username);
      var validPassword := |username| <= 64 && |password| <= 256
        && decided.UserFound? && verify(decided.passwordHash, password);
      if !validPassword {
        return InvalidCredentials;
      }
      if token.Exhausted? || csrf.Exhausted? {
        return NoRandomness;
      }
      var blank := Session(decided.user.username, csrf.value, now + ttl, "", false, FullPermissions, decided.user.updatedAt);
      var session := WithProfile(blank, decided.user);
      IssueSession(now, token.value, session);
      return LoggedIn(session);
    }

    /** The critical section and the token it hands out. */
    method IssueSession(now: Time, token: TokenHash, session: Session)
      requires now >= 0 && token !in issued
      modifies this`sessions, this`attempts, this`issued
      ensures Next(old(View()), LoginInsert(now, token, session), View())
      ensures attempts == Lockout.Pruned(policy, old(attempts), now)
    {
      InsertLocked(now, token, session);
      issued := issued + {token};
    }

    /** The first critical section of `Authenticate`. */
    method BeginAuthenticate(ghost request: RequestId, token: TokenHash, now: Time) returns (found: bool, stored: Session)
      requires request !in pending
      modifies this`sessions, this`pending
      ensures Next(old(View()), AuthenticateLookup(request, token, now), View())
      ensures found <==> token in old(sessions) && old(sessions)[token].expiresAt > now
      ensures found ==> stored == old(sessions)[token] && pending[request] == Pending(token, stored) && sessions == old(sessions)
      ensures !found ==> sessions == old(sessions) - {token} && pending == old(pending)
    {
      if token !in sessions || sessions[token].expiresAt <= now {
        sessions := sessions - {token};
        stored := Session("", 0, 0, "", false, Permissions.Granted({}), 0);
        return false, stored;
      }
      stored := sessions[token];
      found := true;
      pending := pending[request := Pending(token, stored)];
    }

    /** What follows the user lookup, up to and including the second critical section. */
    method FinishAuthenticate(ghost request: RequestId, token: TokenHash, stored: Session, lookup: Lookup)
      returns (answer: Answer)
      requires request in pending && pending[request] == Pending(token, stored)
      modifies this`sessions, this`pending
      ensures answer.Granted? <==>
        !hasUsers || (lookup.UserFound? && lookup.user.active && lookup.user.updatedAt <= stored.userUpdatedAt)
      ensures answer.LookupFailed? <==> hasUsers && lookup.Unavailable?
      ensures answer.Unauthenticated? ==> Next(old(View()), AuthenticateRevoke(request), View()) && sessions == old(sessions) - {token}
      ensures answer.Granted? && hasUsers ==>
        && Next(old(View()), AuthenticateCommit(request, lookup.user), View())
        && answer.session.displayName == lookup.user.displayName && answer.session.isAdmin == lookup.user.isAdmin
        && answer.session.permissions == (if lookup.user.isAdmin then FullPermissions else lookup.user.permissions)
        && answer.session.userUpdatedAt == stored.userUpdatedAt
        && sessions == if token in old(sessions) then old(sessions)[token := answer.session] else old(sessions)
      ensures (answer.Granted? && !hasUsers) || answer.LookupFailed? ==>
        Next(old(View()), AuthenticateAbandon(request), View()) && sessions == old(sessions)
      ensures answer.Granted? && !hasUsers ==> answer.session == stored
      ensures answer.Granted? ==>
        && answer.session.username == stored.username && answer.session.csrf == stored.csrf
        && answer.session.expiresAt == stored.expiresAt
      ensures pending == old(pending) - {request}
    {
      pending := pending - {request};
      var current := stored;
      if hasUsers {
        if lookup.Unavailable? {
          return LookupFailed;
        }
        if lookup.NotExist? || !lookup.user.active || lookup.user.updatedAt > stored.userUpdatedAt {
          sessions := sessions - {token};
          return Unauthenticated;
        }
        current := WithProfile(current, lookup.user);
        if token in sessions {
          sessions := sessions[token := current];
        }
      }
      return Answer.Granted(current);
    }

    method RefreshCurrentSession(token: TokenHash, user: User, now: Time) returns (answer: Answer)
      modifies this`sessions
      ensures Next(old(View()), RefreshSession(token, user, now), View())
      ensures answer.Granted? <==> token in old(sessions) && old(sessions)[token].username == user.username
                                   && old(sessions)[token].expiresAt > now
      ensures answer.Granted? ==>
        && sessions == old(sessions)[token := answer.session]
        && answer.session == Session(user.username, old(sessions)[token].csrf, old(sessions)[token].expiresAt, user.displayName,
             user.isAdmin, if user.isAdmin then FullPermissions else user.permissions, user.updatedAt)
      ensures !answer.Granted? ==> sessions == old(sessions)
    {
      if token !in sessions || sessions[token].username != user.username || sessions[token].expiresAt <= now {
        return Unauthenticated;
      }
      var stored := WithProfile(sessions[token], user);
      stored := stored.(userUpdatedAt := user.updatedAt);
      sessions := sessions[token := stored];
      return Answer.Granted(stored);
    }

    method Logout(token: TokenHash)
      modifies this`sessions
      ensures Next(old(View()), LogoutToken(token), View())
      ensures sessions == old(sessions) - {token}
    {
      sessions := sessions - {token};
    }

    /** A re-authentication that no other request interrupts. */
    method ReauthenticateRequest(key: string, now: Time, lookup: Lookup, username: string, password: string,
                                 verify: (string, string) -> bool) returns (verdict: Lockout.Verdict)
      modifies this
      ensures var correct := |password| <= 256 && CorrectPassword(admin, hasUsers, lookup, username, password, verify);
        var request := Lockout.Request(key, now, old(busySlots) >= VERIFY_SLOTS, correct);
        && verdict == Lockout.VerdictOf(old(attempts), request)
        && attempts == Lockout.After(policy, old(attempts), request, true)
      ensures verdict == Lockout.RateLimited <==>
        (key in old(attempts) && old(attempts)[key].blockedUntil > now) || old(busySlots) >= 4
      ensures verdict == Lockout.Accepted ==> |password| <= 256 && attempts == old(attempts) - {key}
      ensures verdict == Lockout.Accepted || verdict == Lockout.Rejected ==>
        (verdict == Lockout.Accepted <==>
          && |password| <= 256
          && if hasUsers then lookup.UserFound? && lookup.user.active && verify(lookup.passwordHash, password)
             else username == admin.username && verify(admin.passwordHash, password))
      ensures verdict == Lockout.RateLimited ==> attempts == old(attempts)
      ensures verdict == Lockout.Rejected ==> Next(old(View()), PruneExpired(now), View())
      ensures verdict != Lockout.Rejected ==> View() == old(View())
      ensures busySlots == old(busySlots)
    {
      if key in attempts && attempts[key].blockedUntil > now {
        return Lockout.RateLimited;
      }
      if busySlots >= VERIFY_SLOTS {
        return Lockout.RateLimited;
      }
      busySlots := busySlots + 1;
      if |password| > 256 {
        RecordFailure(key, now);
        verdict := Lockout.Rejected;
      } else if !CorrectPassword(admin, hasUsers, lookup, username, password, verify) {
        RecordFailure(key, now);
        verdict := Lockout.Rejected;
      } else {
        attempts := attempts - {key};
        verdict := Lockout.Accepted;
      }
      busySlots := busySlots - 1;
    }
  }

  lemma EvictOneMore(before: Table, table: Table, scope: set<TokenHash>, oldest: TokenHash)
    requires EvictsOldest(before, table, scope)
    requires oldest in scope * table.Keys
    requires forall h | h in scope * table.Keys :: table[oldest].expiresAt <= table[h].expiresAt
    ensures EvictsOldest(before, table - {oldest}, scope)
    ensures |scope * (table - {oldest}).Keys| == |scope * table.Keys| - 1
    ensures (table - {oldest}).Keys == table.Keys - {oldest}
  {
    assert scope * (table - {oldest}).Keys == scope * table.Keys - {oldest};
  }
}
