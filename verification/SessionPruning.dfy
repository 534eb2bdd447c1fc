/** Session pruning is invisible: the pruning service and one that never prunes can give exactly the same answers. */
module SessionPruning {
  import opened SessionModel

  /** `Login` without the prune in front of its evictions. */
  ghost predicate InsertsUnpruned(before: Table, after: Table, token: TokenHash, session: Session) {
    exists afterUser, afterTotal ::
      && MakesRoom(before, afterUser, TokensOf(before, session.username), MAX_USER_SESSIONS)
      && MakesRoom(afterUser, afterTotal, afterUser.Keys, MAX_SESSIONS)
      && after == afterTotal[token := session]
  }

  /** The events of a service that keeps expired rows. Every other event is unchanged. */
  ghost predicate NextUnpruned(u: State, e: Event, u': State) {
    match e
    case LoginInsert(now, token, session) =>
      && now >= 0 && token !in u.issued
      && InsertsUnpruned(u.sessions, u'.sessions, token, session)
      && u'.issued == u.issued + {token}
      && u'.pending == u.pending
    case PruneExpired(now) => u' == u
    case _ => Next(u, e, u')
  }

  /** The instant an event reads, when it reads one. */
  predicate HappensAt(e: Event, now: Time) {
    match e
    case LoginInsert(at, token, session) => at == now && session.expiresAt > now
    case AuthenticateLookup(_, _, at) => at == now
    case RefreshSession(_, _, at) => at == now
    case PruneExpired(at) => at == now
    case _ => true
  }

  /** Both services hold the same unexpired sessions and the same requests in flight. */
  ghost predicate SameLive(p: State, u: State, now: Time) {
    && Live(p.sessions, now) == Live(u.sessions, now)
    && p.issued == u.issued && p.pending == u.pending
    && (forall r | r in u.pending && u.pending[r].token in u.sessions ::
          SameIdentity(u.pending[r].copy, u.sessions[u.pending[r].token]))
    && (forall r | r in u.pending && u.pending[r].token in p.sessions ::
          SameIdentity(u.pending[r].copy, p.sessions[u.pending[r].token]))
    && (forall r | r in u.pending :: u.pending[r].token in u.issued)
    && p.sessions.Keys <= p.issued && u.sessions.Keys <= u.issued
  }

  /** A cut of `scope` down to the bound is the same cut of `live`, when it took nothing of `live`
      before the rest of `scope` was gone. */
  lemma SameCut(scope: set<TokenHash>, left: set<TokenHash>, live: set<TokenHash>, maximum: nat)
    requires maximum > 0 && left <= scope && live <= scope
    requires |left| == if |scope| < maximum then |scope| else maximum - 1
    requires live <= left || left <= live
    ensures |live * left| == if |live| < maximum then |live| else maximum - 1
  {
    if live <= left {
      assert live * left == live;
      SubsetCardinality(live, left);
      SubsetCardinality(live, scope);
    } else {
      var v :| v in live && v !in left;
      assert live * left == left;
      SubsetCardinality(left + {v}, live);
      SubsetCardinality(left + {v}, scope);
    }
  }

  /** Expired sessions go first, so evicting with them in the table spares the same unexpired sessions. */
  lemma EvictionIgnoresExpired(before: Table, after: Table, scope: set<TokenHash>, maximum: nat, now: Time)
    requires maximum > 0 && scope <= before.Keys
    requires MakesRoom(before, after, scope, maximum)
    ensures MakesRoom(Live(before, now), Live(after, now), scope * Live(before, now).Keys, maximum)
  {
    var left, live := scope * after.Keys, scope * Live(before, now).Keys;
    if !(live <= left) {
      var v :| v in live && v !in left;
      forall k | k in left ensures k in live {
        assert v in before.Keys - after.Keys && k in scope * after.Keys;
      }
    }
    SameCut(scope, left, live, maximum);
    assert live * Live(after, now).Keys == live * left;
  }

  lemma UserStageMatches(before: Table, afterUser: Table, now: Time, username: string)
    requires MakesRoom(before, afterUser, TokensOf(before, username), MAX_USER_SESSIONS)
    ensures MakesRoom(Live(before, now), Live(afterUser, now), TokensOf(Live(before, now), username), MAX_USER_SESSIONS)
  {
    EvictionIgnoresExpired(before, afterUser, TokensOf(before, username), MAX_USER_SESSIONS, now);
    assert TokensOf(Live(before, now), username) == TokensOf(before, username) * Live(before, now).Keys;
  }

  lemma TotalStageMatches(afterUser: Table, afterTotal: Table, now: Time)
    requires MakesRoom(afterUser, afterTotal, afterUser.Keys, MAX_SESSIONS)
    ensures MakesRoom(Live(afterUser, now), Live(afterTotal, now), Live(afterUser, now).Keys, MAX_SESSIONS)
  {
    EvictionIgnoresExpired(afterUser, afterTotal, afterUser.Keys, MAX_SESSIONS, now);
    assert Live(afterUser, now).Keys == afterUser.Keys * Live(afterUser, now).Keys;
  }

  lemma LoginMatches(before: Table, after: Table, now: Time, token: TokenHash, session: Session)
    requires session.expiresAt > now
    requires InsertsUnpruned(before, after, token, session)
    ensures InsertsWithRoom(before, Live(after, now), now, token, session)
  {
    var afterUser, afterTotal :|
      && MakesRoom(before, afterUser, TokensOf(before, session.username), MAX_USER_SESSIONS)
      && MakesRoom(afterUser, afterTotal, afterUser.Keys, MAX_SESSIONS)
      && after == afterTotal[token := session];
    UserStageMatches(before, afterUser, now, session.username);
    TotalStageMatches(afterUser, afterTotal, now);
    LiveInsert(afterTotal, token, session, now);
  }

  lemma LiveInsert(table: Table, token: TokenHash, session: Session, now: Time)
    requires session.expiresAt > now
    ensures Live(table[token := session], now) == Live(table, now)[token := session]
  {
  }

  lemma LiveLater(a: Table, b: Table, earlier: Time, later: Time)
    requires Live(a, earlier) == Live(b, earlier) && earlier <= later
    ensures Live(a, later) == Live(b, later)
  {
    assert Live(a, later) == Live(Live(a, earlier), later);
    assert Live(b, later) == Live(Live(b, earlier), later);
  }

  lemma SameLiveLater(p: State, u: State, earlier: Time, later: Time)
    requires SameLive(p, u, earlier) && earlier <= later
    ensures SameLive(p, u, later)
  {
    LiveLater(p.sessions, u.sessions, earlier, later);
  }

  // ---------------------------------------------------------------- evictions that spare the same sessions

  lemma {:induction false} OldestOf(table: Table, tokens: set<TokenHash>) returns (oldest: TokenHash)
    requires tokens <= table.Keys && tokens != {}
    ensures oldest in tokens && forall h | h in tokens :: table[oldest].expiresAt <= table[h].expiresAt
    decreases |tokens|
  {
    oldest :| oldest in tokens;
    if tokens != {oldest} {
      var rest := OldestOf(table, tokens - {oldest});
      if table[rest].expiresAt < table[oldest].expiresAt {
        oldest := rest;
      }
    }
  }

  lemma {:induction false} NewestOf(table: Table, tokens: set<TokenHash>, n: nat) returns (kept: set<TokenHash>)
    requires tokens <= table.Keys && n <= |tokens|
    ensures kept <= tokens && |kept| == n
    ensures forall v, k | v in tokens - kept && k in kept :: table[v].expiresAt <= table[k].expiresAt
    decreases |tokens|
  {
    if n == |tokens| {
      kept := tokens;
    } else {
      var oldest := OldestOf(table, tokens);
      kept := NewestOf(table, tokens - {oldest}, n);
    }
  }

  lemma SameBySize<T>(a: set<T>, b: set<T>)
    requires a <= b && |a| == |b|
    ensures a == b
  {
    assert b == a + (b - a);
  }

  /** The tokens of `scope` that stay when expired ones go first and `left` is to be spared of the live ones. */
  lemma KeptOf(before: Table, scope: set<TokenHash>, live: set<TokenHash>, left: set<TokenHash>, maximum: nat)
    returns (kept: set<TokenHash>)
    requires maximum > 0 && left <= live <= scope <= before.Keys
    requires |left| == if |live| < maximum then |live| else maximum - 1
    ensures kept <= scope && live * kept == left
    ensures |kept| == if |scope| < maximum then |scope| else maximum - 1
    ensures forall v, k | v in scope - live - kept && k in kept - live :: before[v].expiresAt <= before[k].expiresAt
    ensures live != left ==> kept == left
  {
    SubsetCardinality(live, scope);
    if |live| < maximum {
      SameBySize(left, live);
      if |scope| < maximum {
        kept := scope;
      } else {
        assert scope == live + (scope - live);
        var newest := NewestOf(before, scope - live, maximum - 1 - |live|);
        kept := live + newest;
      }
    } else {
      kept := left;
    }
  }

  function CutTo(before: Table, scope: set<TokenHash>, kept: set<TokenHash>): Table {
    map h | h in before && (h in scope ==> h in kept) :: before[h]
  }

  lemma CutShape(before: Table, scope: set<TokenHash>, kept: set<TokenHash>)
    requires kept <= scope <= before.Keys
    ensures SubTable(CutTo(before, scope, kept), before)
    ensures scope * CutTo(before, scope, kept).Keys == kept
    ensures before.Keys - CutTo(before, scope, kept).Keys == scope - kept
  {
  }

  lemma CutEvictsOldest(before: Table, liveAfter: Table, scope: set<TokenHash>, kept: set<TokenHash>, now: Time)
    requires scope <= before.Keys && kept <= scope
    requires EvictsOldest(Live(before, now), liveAfter, scope * Live(before, now).Keys)
    requires SparesLive(before, liveAfter, scope, kept, now)
    ensures EvictsOldest(before, CutTo(before, scope, kept), scope)
  {
    CutShape(before, scope, kept);
    var after := CutTo(before, scope, kept);
    forall v, k | v in before.Keys - after.Keys && k in scope * after.Keys ensures before[v].expiresAt <= before[k].expiresAt {
      ExtendedOrder(before, liveAfter, scope, kept, now, v, k);
    }
  }

  /** `kept` spares of `scope` the live tokens of `liveAfter`, and of the expired ones the newest. */
  ghost predicate SparesLive(before: Table, liveAfter: Table, scope: set<TokenHash>, kept: set<TokenHash>, now: Time)
    requires scope <= before.Keys && kept <= scope
  {
    var live := scope * Live(before, now).Keys;
    && live * kept == live * liveAfter.Keys
    && (forall a, b | a in scope - live - kept && b in kept - live :: before[a].expiresAt <= before[b].expiresAt)
    && (live != live * kept ==> kept <= live)
  }

  /** A cut of the live sessions extends to a cut of all sessions. */
  lemma ExtendCut(before: Table, liveAfter: Table, scope: set<TokenHash>, maximum: nat, now: Time) returns (after: Table)
    requires maximum > 0 && scope <= before.Keys
    requires MakesRoom(Live(before, now), liveAfter, scope * Live(before, now).Keys, maximum)
    ensures MakesRoom(before, after, scope, maximum) && Live(after, now) == liveAfter
  {
    var kept := KeptFor(before, liveAfter, scope, maximum, now);
    after := CutTo(before, scope, kept);
    CutShape(before, scope, kept);
    CutEvictsOldest(before, liveAfter, scope, kept, now);
    ExtendedLive(before, liveAfter, scope, kept, now);
  }

  lemma KeptFor(before: Table, liveAfter: Table, scope: set<TokenHash>, maximum: nat, now: Time) returns (kept: set<TokenHash>)
    requires maximum > 0 && scope <= before.Keys
    requires MakesRoom(Live(before, now), liveAfter, scope * Live(before, now).Keys, maximum)
    ensures kept <= scope && SparesLive(before, liveAfter, scope, kept, now)
    ensures |kept| == if |scope| < maximum then |scope| else maximum - 1
  {
    var live := scope * Live(before, now).Keys;
    kept := KeptOf(before, scope, live, live * liveAfter.Keys, maximum);
  }

  lemma ExtendedOrder(before: Table, liveAfter: Table, scope: set<TokenHash>, kept: set<TokenHash>, now: Time,
                      v: TokenHash, k: TokenHash)
    requires scope <= before.Keys && kept <= scope && v in scope - kept && k in kept
    requires EvictsOldest(Live(before, now), liveAfter, scope * Live(before, now).Keys)
    requires SparesLive(before, liveAfter, scope, kept, now)
    ensures before[v].expiresAt <= before[k].expiresAt
  {
    var live := scope * Live(before, now).Keys;
    if v in live {
      assert v !in live * kept;
      assert k in live * kept && k in live * liveAfter.Keys;
      assert v in Live(before, now).Keys - liveAfter.Keys;
      assert Live(before, now)[v].expiresAt <= Live(before, now)[k].expiresAt;
    } else if k !in live {
      assert v in scope - live - kept && k in kept - live;
    }
  }

  lemma ExtendedLive(before: Table, liveAfter: Table, scope: set<TokenHash>, kept: set<TokenHash>, now: Time)
    requires SubTable(liveAfter, Live(before, now)) && Live(before, now).Keys - liveAfter.Keys <= scope
    requires scope * Live(before, now).Keys * kept == scope * Live(before, now).Keys * liveAfter.Keys
    ensures Live(CutTo(before, scope, kept), now) == liveAfter
  {
    var live, after := scope * Live(before, now).Keys, CutTo(before, scope, kept);
    forall h ensures h in Live(after, now) <==> h in liveAfter {
      if h in live {
        assert h in live * kept <==> h in live * liveAfter.Keys;
      }
    }
    forall h | h in liveAfter ensures Live(after, now)[h] == liveAfter[h] {
      assert h in Live(after, now) && liveAfter[h] == Live(before, now)[h];
    }
  }

  /** What the pruning login does to the live sessions, the other one can do too. */
  lemma LoginExtends(before: Table, after: Table, now: Time, token: TokenHash, session: Session) returns (full: Table)
    requires session.expiresAt > now
    requires InsertsWithRoom(before, after, now, token, session)
    ensures InsertsUnpruned(before, full, token, session) && Live(full, now) == after
  {
    var live := Live(before, now);
    var liveUser, liveTotal :|
      && MakesRoom(live, liveUser, TokensOf(live, session.username), MAX_USER_SESSIONS)
      && MakesRoom(liveUser, liveTotal, liveUser.Keys, MAX_SESSIONS)
      && after == liveTotal[token := session];
    assert TokensOf(live, session.username) == TokensOf(before, session.username) * live.Keys;
    var afterUser := ExtendCut(before, liveUser, TokensOf(before, session.username), MAX_USER_SESSIONS, now);
    assert liveUser.Keys == afterUser.Keys * Live(afterUser, now).Keys;
    var afterTotal := ExtendCut(afterUser, liveTotal, afterUser.Keys, MAX_SESSIONS, now);
    LiveInsert(afterTotal, token, session, now);
    full := afterTotal[token := session];
  }

  // ---------------------------------------------------------------- matching steps

  function Found(s: State, token: TokenHash, now: Time): (found: bool) {
    token in s.sessions && s.sessions[token].expiresAt > now
  }

  lemma SameVerdict(p: State, u: State, token: TokenHash, now: Time)
    requires SameLive(p, u, now)
    ensures Found(p, token, now) == Found(u, token, now)
    ensures Found(p, token, now) ==> p.sessions[token] == u.sessions[token]
  {
    assert Found(p, token, now) == (token in Live(p.sessions, now));
    assert Found(u, token, now) == (token in Live(u.sessions, now));
    if Found(p, token, now) {
      assert Live(p.sessions, now)[token] == Live(u.sessions, now)[token];
    }
  }

  /** The successor of the pruning service that matches a step of the other one. */
  ghost function Matching(p: State, e: Event, u': State, now: Time): State {
    match e
    case LoginInsert(_, token, _) => State(Live(u'.sessions, now), u'.issued, u'.pending)
    case PruneExpired(_) => p.(sessions := Live(p.sessions, now))
    case AuthenticateLookup(request, token, _) =>
      if Found(p, token, now) then p.(pending := p.pending[request := Pending(token, p.sessions[token])])
      else p.(sessions := p.sessions - {token})
    case AuthenticateRevoke(request) =>
      if request in p.pending then State(p.sessions - {p.pending[request].token}, p.issued, p.pending - {request}) else p
    case AuthenticateAbandon(request) => p.(pending := p.pending - {request})
    case AuthenticateCommit(request, user) =>
      if request in p.pending && p.pending[request].token in p.sessions
      then State(p.sessions[p.pending[request].token := WithProfile(p.pending[request].copy, user)],
                 p.issued, p.pending - {request})
      else p.(pending := p.pending - {request})
    case RefreshSession(token, user, _) =>
      if Found(p, token, now) && p.sessions[token].username == user.username
      then p.(sessions := p.sessions[token := WithProfile(p.sessions[token], user).(userUpdatedAt := user.updatedAt)])
      else p
    case LogoutToken(token) => p.(sessions := p.sessions - {token})
  }

  lemma MatchingIsNext(p: State, u: State, e: Event, u': State, now: Time)
    requires SameLive(p, u, now) && NextUnpruned(u, e, u') && HappensAt(e, now)
    ensures Next(p, e, Matching(p, e, u', now))
  {
    if e.LoginInsert? {
      LoginMatches(u.sessions, u'.sessions, now, e.token, e.session);
      assert Live(p.sessions, now) == Live(u.sessions, now);
    }
  }

  lemma MatchingSameTables(p: State, u: State, e: Event, u': State, now: Time)
    requires SameLive(p, u, now) && NextUnpruned(u, e, u') && HappensAt(e, now)
    ensures Live(Matching(p, e, u', now).sessions, now) == Live(u'.sessions, now)
  {
    match e
    case LoginInsert(_, token, session) =>
      assert Live(Live(u'.sessions, now), now) == Live(u'.sessions, now);
    case PruneExpired(_) =>
      assert Live(Live(p.sessions, now), now) == Live(p.sessions, now);
    case AuthenticateLookup(request, token, _) =>
      SameVerdict(p, u, token, now);
      RemovalSameTables(p, u, token, now);
    case AuthenticateRevoke(request) =>
      RemovalSameTables(p, u, u.pending[request].token, now);
    case AuthenticateAbandon(request) =>
    case AuthenticateCommit(request, user) =>
      CommitSameTables(p, u, u.pending[request].token, WithProfile(u.pending[request].copy, user), now);
    case RefreshSession(token, user, _) =>
      SameVerdict(p, u, token, now);
      if Found(p, token, now) && p.sessions[token].username == user.username {
        var session := WithProfile(p.sessions[token], user).(userUpdatedAt := user.updatedAt);
        UpdateLive(p.sessions, token, session, now);
        UpdateLive(u.sessions, token, session, now);
      }
    case LogoutToken(token) =>
      RemovalSameTables(p, u, token, now);
  }

  lemma RemovalSameTables(p: State, u: State, token: TokenHash, now: Time)
    requires Live(p.sessions, now) == Live(u.sessions, now)
    ensures Live(p.sessions - {token}, now) == Live(u.sessions - {token}, now)
  {
    assert Live(p.sessions - {token}, now) == Live(p.sessions, now) - {token};
    assert Live(u.sessions - {token}, now) == Live(u.sessions, now) - {token};
  }

  lemma UpdateLive(table: Table, token: TokenHash, session: Session, now: Time)
    requires token in table && session.expiresAt == table[token].expiresAt
    ensures Live(table[token := session], now)
         == if session.expiresAt > now then Live(table, now)[token := session] else Live(table, now)
  {
  }

  lemma CommitSameTables(p: State, u: State, token: TokenHash, session: Session, now: Time)
    requires Live(p.sessions, now) == Live(u.sessions, now)
    requires token in p.sessions ==> p.sessions[token].expiresAt == session.expiresAt
    requires token in u.sessions ==> u.sessions[token].expiresAt == session.expiresAt
    ensures Live(if token in p.sessions then p.sessions[token := session] else p.sessions, now)
         == Live(if token in u.sessions then u.sessions[token := session] else u.sessions, now)
  {
    assert token in p.sessions && session.expiresAt > now <==> token in Live(p.sessions, now);
    assert token in u.sessions && session.expiresAt > now <==> token in Live(u.sessions, now);
    if token in p.sessions { UpdateLive(p.sessions, token, session, now); }
    if token in u.sessions { UpdateLive(u.sessions, token, session, now); }
  }

  lemma LoginLinks(p: State, u: State, e: Event, u': State, now: Time)
    requires SameLive(p, u, now) && NextUnpruned(u, e, u') && HappensAt(e, now) && e.LoginInsert?
    ensures SameLive(Matching(p, e, u', now), u', now)
  {
    MatchingSameTables(p, u, e, u', now);
  }

  /** Copies in flight keep the identity of their row, pruned or not. */
  lemma MatchingLinks(p: State, u: State, e: Event, u': State, now: Time)
    requires SameLive(p, u, now) && NextUnpruned(u, e, u') && HappensAt(e, now)
    ensures SameLive(Matching(p, e, u', now), u', now)
  {
    if e.LoginInsert? {
      LoginLinks(p, u, e, u', now);
    } else {
      MatchingSameTables(p, u, e, u', now);
      if e.AuthenticateLookup? {
        SameVerdict(p, u, e.token, now);
      }
    }
  }

  /** Every event but an insertion and a pruning has one successor. */
  lemma NextIsMatching(p: State, e: Event, p': State, now: Time)
    requires Next(p, e, p') && HappensAt(e, now) && !e.LoginInsert? && !e.PruneExpired?
    ensures forall any :: p' == Matching(p, e, any, now)
  {
  }

  /** A step of the pruning service is matched by one of the other service. */
  lemma MatchingUnpruned(p: State, u: State, e: Event, p': State, now: Time) returns (u': State)
    requires SameLive(p, u, now) && Next(p, e, p') && HappensAt(e, now)
    ensures NextUnpruned(u, e, u') && SameLive(p', u', now)
  {
    if e.LoginInsert? {
      u' := MatchingLogin(p, u, e, p', now);
    } else if e.PruneExpired? {
      u' := u;
      MatchingLinks(p, u, e, u', now);
    } else {
      u' := Matching(u, e, u, now);
      OtherIsNext(p, u, e, p', now);
      MatchingLinks(p, u, e, u', now);
      NextIsMatching(p, e, p', now);
    }
  }

  lemma OtherIsNext(p: State, u: State, e: Event, p': State, now: Time)
    requires SameLive(p, u, now) && Next(p, e, p') && HappensAt(e, now) && !e.LoginInsert? && !e.PruneExpired?
    ensures Next(u, e, Matching(u, e, u, now))
  {
  }

  lemma MatchingLogin(p: State, u: State, e: Event, p': State, now: Time) returns (u': State)
    requires SameLive(p, u, now) && Next(p, e, p') && HappensAt(e, now) && e.LoginInsert?
    ensures NextUnpruned(u, e, u') && SameLive(p', u', now)
  {
    var full := MatchingTable(p.sessions, u.sessions, p'.sessions, now, e.token, e.session);
    u' := State(full, p'.issued, p'.pending);
    LoginSameLive(p, u, e, p', u', now);
  }

  lemma MatchingTable(a: Table, b: Table, after: Table, now: Time, token: TokenHash, session: Session) returns (full: Table)
    requires Live(a, now) == Live(b, now) && session.expiresAt > now
    requires InsertsWithRoom(a, after, now, token, session)
    ensures InsertsUnpruned(b, full, token, session) && Live(full, now) == Live(after, now)
    ensures token in after && forall h | h in after && h != token :: h in a && after[h] == a[h]
    ensures token in full && forall h | h in full && h != token :: h in b && full[h] == b[h]
  {
    InsertOnlyAdds(a, after, now, token, session);
    assert InsertsWithRoom(b, after, now, token, session) by {
      RoomIsForLive(a, b, after, now, token, session);
    }
    full := LoginExtends(b, after, now, token, session);
    FullInsertOnlyAdds(b, full, token, session);
    LiveTwice(full, now);
  }

  lemma LiveTwice(table: Table, now: Time)
    ensures Live(Live(table, now), now) == Live(table, now)
  {
  }

  lemma RoomIsForLive(a: Table, b: Table, after: Table, now: Time, token: TokenHash, session: Session)
    requires Live(a, now) == Live(b, now) && InsertsWithRoom(a, after, now, token, session)
    ensures InsertsWithRoom(b, after, now, token, session)
  {
  }

  lemma FullInsertOnlyAdds(before: Table, after: Table, token: TokenHash, session: Session)
    requires InsertsUnpruned(before, after, token, session)
    ensures token in after && forall h | h in after && h != token :: h in before && after[h] == before[h]
  {
  }

  lemma LoginSameLive(p: State, u: State, e: Event, p': State, u': State, now: Time)
    requires SameLive(p, u, now) && e.LoginInsert? && e.token !in p.issued
    requires p'.issued == u'.issued == p.issued + {e.token} && p'.pending == u'.pending == p.pending
    requires e.token in p'.sessions && e.token in u'.sessions
    requires forall h | h in p'.sessions && h != e.token :: h in p.sessions && p'.sessions[h] == p.sessions[h]
    requires forall h | h in u'.sessions && h != e.token :: h in u.sessions && u'.sessions[h] == u.sessions[h]
    requires Live(p'.sessions, now) == Live(u'.sessions, now)
    ensures SameLive(p', u', now)
  {
  }

  // ---------------------------------------------------------------- runs

  /** Each event reads the instant given for it, and the clock never steps back. */
  ghost predicate Timed(events: seq<Event>, times: seq<Time>) {
    && |times| == |events|
    && (forall i | 0 <= i < |events| :: HappensAt(events[i], times[i]))
    && (forall i, j | 0 <= i <= j < |times| :: 0 <= times[i] <= times[j])
  }

  ghost predicate IsUnprunedRun(run: seq<State>, events: seq<Event>) {
    && |run| == |events| + 1
    && run[0] == Initial
    && forall i | 0 <= i < |events| :: NextUnpruned(run[i], events[i], run[i + 1])
  }

  /** At every event both services hold the same unexpired sessions and find the same tokens. */
  ghost predicate AnswerAlike(pruning: seq<State>, other: seq<State>, times: seq<Time>) {
    && |pruning| == |other| == |times| + 1
    && (forall i | 0 <= i < |times| :: SameLive(pruning[i], other[i], times[i]))
    && (forall i, token | 0 <= i < |times| :: Found(pruning[i], token, times[i]) == Found(other[i], token, times[i]))
  }

  lemma SameLiveAnswersAlike(pruning: seq<State>, other: seq<State>, times: seq<Time>)
    requires |pruning| == |other| == |times| + 1
    requires forall i | 0 <= i < |times| :: SameLive(pruning[i], other[i], times[i])
    ensures AnswerAlike(pruning, other, times)
  {
    forall i, token | 0 <= i < |times| ensures Found(pruning[i], token, times[i]) == Found(other[i], token, times[i]) {
      SameVerdict(pruning[i], other[i], token, times[i]);
    }
  }

  /** Under a clock that never steps back, the runs of the real service and the runs of a service that never prunes
      match each other event by event, in both directions, with the same verdict on every token. */
  lemma PruningIsInvisible(events: seq<Event>, times: seq<Time>)
    requires Timed(events, times)
    ensures forall other | IsUnprunedRun(other, events) ::
      exists pruning :: IsRun(pruning, events) && AnswerAlike(pruning, other, times)
    ensures forall pruning | IsRun(pruning, events) ::
      exists other :: IsUnprunedRun(other, events) && AnswerAlike(pruning, other, times)
  {
    forall other | IsUnprunedRun(other, events)
      ensures exists pruning :: IsRun(pruning, events) && AnswerAlike(pruning, other, times)
    {
      var pruning := MatchingRun(other, events, times);
      SameLiveAnswersAlike(pruning, other, times);
    }
    forall pruning | IsRun(pruning, events)
      ensures exists other :: IsUnprunedRun(other, events) && AnswerAlike(pruning, other, times)
    {
      var other := MatchingUnprunedRun(pruning, events, times);
      SameLiveAnswersAlike(pruning, other, times);
    }
  }

  function Last(times: seq<Time>): Time { if times == [] then 0 else times[|times| - 1] }

  lemma {:induction false} MatchingRun(run: seq<State>, events: seq<Event>, times: seq<Time>) returns (actual: seq<State>)
    requires IsUnprunedRun(run, events) && Timed(events, times)
    ensures IsRun(actual, events)
    ensures forall i | 0 <= i < |events| :: SameLive(actual[i], run[i], times[i])
    ensures SameLive(actual[|events|], run[|events|], Last(times))
    decreases |events|
  {
    if events == [] {
      actual := [Initial];
    } else {
      var n := |events| - 1;
      var prefix := MatchingRun(run[..n + 1], events[..n], times[..n]);
      var last, now := prefix[n], times[n];
      SameLiveLater(last, run[n], Last(times[..n]), now);
      MatchingIsNext(last, run[n], events[n], run[n + 1], now);
      MatchingLinks(last, run[n], events[n], run[n + 1], now);
      actual := prefix + [Matching(last, events[n], run[n + 1], now)];
      forall i | 0 <= i < |events| ensures Next(actual[i], events[i], actual[i + 1]) {
        if i < n { assert Next(prefix[i], events[..n][i], prefix[i + 1]); }
      }
    }
  }

  lemma ExtendUnprunedRun(prefix: seq<State>, events: seq<Event>, next: State)
    requires events != [] && IsUnprunedRun(prefix, events[..|events| - 1])
    requires NextUnpruned(prefix[|events| - 1], events[|events| - 1], next)
    ensures IsUnprunedRun(prefix + [next], events)
  {
    var run, n := prefix + [next], |events| - 1;
    forall i | 0 <= i < |events| ensures NextUnpruned(run[i], events[i], run[i + 1]) {
      if i < n {
        assert NextUnpruned(prefix[i], events[..n][i], prefix[i + 1]);
      }
    }
  }

  lemma {:induction false} MatchingUnprunedRun(run: seq<State>, events: seq<Event>, times: seq<Time>) returns (other: seq<State>)
    requires IsRun(run, events) && Timed(events, times)
    ensures IsUnprunedRun(other, events)
    ensures forall i | 0 <= i < |events| :: SameLive(run[i], other[i], times[i])
    ensures SameLive(run[|events|], other[|events|], Last(times))
    decreases |events|
  {
    if events == [] {
      other := [Initial];
    } else {
      var n := |events| - 1;
      var prefix := MatchingUnprunedRun(run[..n + 1], events[..n], times[..n]);
      var last, now := prefix[n], times[n];
      SameLiveLater(run[n], last, Last(times[..n]), now);
      var next := MatchingUnpruned(run[n], last, events[n], run[n + 1], now);
      other := prefix + [next];
      ExtendUnprunedRun(prefix, events, next);
    }
  }
}
