/** Refresh-token families (services/auth.py): rotation, reuse detection, logout and password change. */
module Sessions {
  import opened Prelude

  type UserId = nat
  type SessionId = nat
  type FamilyId = nat
  type Token = nat
  type Password = nat
  datatype TokenHash = HashOf(token: Token)

  datatype User = User(password: Password, active: bool)
  datatype Session = Session(
    user: UserId,
    tokenHash: TokenHash,
    family: FamilyId,
    issuedAt: int,
    expiresAt: int,
    revokedAt: Option<int>,
    replacedBy: Option<SessionId>)

  type Table = map<SessionId, Session>

  /** chains is history: every family's sessions in the order they were issued. */
  datatype State = State(users: map<UserId, User>, sessions: Table, chains: map<FamilyId, seq<SessionId>>)

  const EMPTY := State(map[], map[], map[])

  datatype Outcome = Issued | Finished | InvalidCredentials | WeakPassword | InvalidToken | TokenReused | TokenExpired | Unauthenticated

  /** acceptable: the new password meets the password rules. */
  datatype Event =
    | Login(user: UserId, password: Password, id: SessionId, raw: Token, family: FamilyId, now: int, ttl: int)
    | Refresh(raw: Token, id: SessionId, next: Token, now: int, ttl: int)
    | Logout(token: Option<Token>, now: int)
    | ChangePassword(user: UserId, current: Password, next: Password, acceptable: bool, now: int)
    | SetUser(user: UserId, value: User)

  function Issue(user: UserId, raw: Token, family: FamilyId, now: int, ttl: int): Session {
    Session(user, HashOf(raw), family, now, now + ttl, None, None)
  }

  function Revoke(session: Session, now: int): Session {
    if session.revokedAt.None? then session.(revokedAt := Some(now)) else session
  }

  function RevokeFamily(sessions: Table, family: FamilyId, now: int): Table {
    map id | id in sessions :: if sessions[id].family == family then Revoke(sessions[id], now) else sessions[id]
  }

  function RevokeUser(sessions: Table, user: UserId, now: int): Table {
    map id | id in sessions :: if sessions[id].user == user then Revoke(sessions[id], now) else sessions[id]
  }

  ghost function Find(sessions: Table, raw: Token): Option<SessionId> {
    if exists id :: id in sessions && sessions[id].tokenHash == HashOf(raw)
    then var id :| id in sessions && sessions[id].tokenHash == HashOf(raw); Some(id)
    else None
  }

  predicate ActiveUser(users: map<UserId, User>, user: UserId) {
    user in users && users[user].active
  }

  function ApplyLogin(s: State, user: UserId, password: Password, id: SessionId, raw: Token, family: FamilyId,
                      now: int, ttl: int): (State, Outcome)
  {
    if !ActiveUser(s.users, user) || s.users[user].password != password then (s, InvalidCredentials)
    else (s.(sessions := s.sessions[id := Issue(user, raw, family, now, ttl)], chains := s.chains[family := [id]]), Issued)
  }

  /** Presenting the token of the stored session old. */
  function ApplyRotate(s: State, presented: SessionId, id: SessionId, raw: Token, now: int, ttl: int): (State, Outcome)
    requires presented in s.sessions
  {
    var session := s.sessions[presented];
    if session.revokedAt.Some? then
      (s.(sessions := RevokeFamily(s.sessions, session.family, now)), TokenReused)
    else if session.expiresAt <= now then
      (s.(sessions := s.sessions[presented := session.(revokedAt := Some(now))]), TokenExpired)
    else if !ActiveUser(s.users, session.user) then (s, Unauthenticated)
    else
      var replaced := session.(revokedAt := Some(now), replacedBy := Some(id));
      (s.(sessions := s.sessions[id := Issue(session.user, raw, session.family, now, ttl)][presented := replaced],
          chains := if session.family in s.chains
                    then s.chains[session.family := s.chains[session.family] + [id]] else s.chains), Issued)
  }

  ghost function Apply(s: State, e: Event): (State, Outcome) {
    match e
    case Login(user, password, id, raw, family, now, ttl) => ApplyLogin(s, user, password, id, raw, family, now, ttl)
    case Refresh(raw, id, next, now, ttl) =>
      (match Find(s.sessions, raw)
       case None => (s, InvalidToken)
       case Some(found) => ApplyRotate(s, found, id, next, now, ttl))
    case Logout(token, now) =>
      (match if token.None? then None else Find(s.sessions, token.value)
       case None => (s, Finished)
       case Some(found) => (s.(sessions := s.sessions[found := Revoke(s.sessions[found], now)]), Finished))
    case ChangePassword(user, current, next, acceptable, now) =>
      if user !in s.users || s.users[user].password != current then (s, InvalidCredentials)
      else if !acceptable then (s, WeakPassword)
      else (s.(users := s.users[user := s.users[user].(password := next)],
               sessions := RevokeUser(s.sessions, user, now)), Finished)
    case SetUser(user, value) => (s.(users := s.users[user := value]), Finished)
  }

  /** Tokens, session ids and family ids are fresh. */
  predicate Legal(s: State, e: Event) {
    match e
    case Login(_, _, id, raw, family, _, _) => id !in s.sessions && family !in s.chains && FreshToken(s.sessions, raw)
    case Refresh(_, id, next, _, _) => id !in s.sessions && FreshToken(s.sessions, next)
    case _ => true
  }

  predicate FreshToken(sessions: Table, raw: Token) {
    forall id :: id in sessions ==> sessions[id].tokenHash != HashOf(raw)
  }

  // ---- The chain invariant -----------------------------------------------------------------------

  /** The i-th session of a family: all but the last are revoked and point to the next one. */
  predicate LinkOk(sessions: Table, family: FamilyId, chain: seq<SessionId>, i: nat)
    requires i < |chain|
  {
    && chain[i] in sessions
    && var session := sessions[chain[i]];
       && session.family == family
       && chain[0] in sessions && session.user == sessions[chain[0]].user
       && (if i + 1 < |chain| then session.revokedAt.Some? && session.replacedBy == Some(chain[i + 1])
           else session.replacedBy.None?)
  }

  ghost predicate ChainOk(sessions: Table, family: FamilyId, chain: seq<SessionId>) {
    && chain != []
    && (forall i, j :: 0 <= i < j < |chain| ==> chain[i] != chain[j])
    && (forall i :: 0 <= i < |chain| ==> LinkOk(sessions, family, chain, i))
  }

  ghost predicate ChainsOk(sessions: Table, chains: map<FamilyId, seq<SessionId>>) {
    forall family :: family in chains ==> ChainOk(sessions, family, chains[family])
  }

  ghost predicate Covered(sessions: Table, chains: map<FamilyId, seq<SessionId>>) {
    forall id :: id in sessions ==> sessions[id].family in chains && id in chains[sessions[id].family]
  }

  ghost predicate DistinctTokens(sessions: Table) {
    forall a, b :: a in sessions && b in sessions && a != b ==> sessions[a].tokenHash != sessions[b].tokenHash
  }

  ghost predicate Inv(s: State) {
    ChainsOk(s.sessions, s.chains) && Covered(s.sessions, s.chains) && DistinctTokens(s.sessions)
  }

  lemma FoundIs(s: State, id: SessionId)
    requires Inv(s) && id in s.sessions
    ensures Find(s.sessions, s.sessions[id].tokenHash.token) == Some(id)
  {}

  /** The unrevoked session of a family is its chain's last. */
  lemma LiveIsLast(s: State, id: SessionId)
    requires Inv(s) && id in s.sessions && s.sessions[id].revokedAt.None?
    ensures s.sessions[id].family in s.chains
    ensures var chain := s.chains[s.sessions[id].family]; chain != [] && chain[|chain| - 1] == id
  {
    var family := s.sessions[id].family;
    var chain := s.chains[family];
    var i :| 0 <= i < |chain| && chain[i] == id;
    assert LinkOk(s.sessions, family, chain, i);
  }

  /** Each family has at most one unrevoked session. */
  lemma OneLivePerFamily(s: State, a: SessionId, b: SessionId)
    requires Inv(s) && a in s.sessions && b in s.sessions && s.sessions[a].family == s.sessions[b].family
    requires s.sessions[a].revokedAt.None? && s.sessions[b].revokedAt.None?
    ensures a == b
  {
    LiveIsLast(s, a);
    LiveIsLast(s, b);
  }

  // ---- Steps keep the invariant ---------------------------------------------------------------------

  /** Revoking some sessions, changing nothing else. */
  predicate OnlyRevokes(before: Table, after: Table) {
    && after.Keys == before.Keys
    && (forall id :: id in before ==>
          after[id].(revokedAt := None) == before[id].(revokedAt := None)
          && (before[id].revokedAt.Some? ==> after[id].revokedAt.Some?))
  }

  lemma RevokingKeepsInv(s: State, after: Table)
    requires Inv(s) && OnlyRevokes(s.sessions, after)
    ensures Inv(s.(sessions := after))
  {
    assert forall id :: id in after ==> after[id].(revokedAt := None) == s.sessions[id].(revokedAt := None);
    forall family | family in s.chains ensures ChainOk(after, family, s.chains[family]) {
      var chain := s.chains[family];
      forall i | 0 <= i < |chain| ensures LinkOk(after, family, chain, i) {
        assert LinkOk(s.sessions, family, chain, i);
        var a, b := after[chain[i]].(revokedAt := None), s.sessions[chain[i]].(revokedAt := None);
        assert a == b;
        assert after[chain[0]].(revokedAt := None) == s.sessions[chain[0]].(revokedAt := None);
      }
    }
    forall id | id in after ensures after[id].family == s.sessions[id].family && after[id].tokenHash == s.sessions[id].tokenHash {
      assert after[id].(revokedAt := None).family == s.sessions[id].(revokedAt := None).family;
      assert after[id].(revokedAt := None).tokenHash == s.sessions[id].(revokedAt := None).tokenHash;
    }
  }

  lemma LoginKeepsInv(s: State, e: Event)
    requires Inv(s) && e.Login? && Legal(s, e) && Apply(s, e).1.Issued?
    ensures Inv(Apply(s, e).0)
  {
    var after := Apply(s, e).0;
    forall family | family in after.chains ensures ChainOk(after.sessions, family, after.chains[family]) {
      if family != e.family {
        forall i | 0 <= i < |s.chains[family]| ensures s.chains[family][i] in s.sessions {
          assert LinkOk(s.sessions, family, s.chains[family], i);
        }
        ChainUntouched(s.sessions, after.sessions, family, s.chains[family]);
      }
    }
  }

  lemma ChainUntouched(before: Table, after: Table, family: FamilyId, chain: seq<SessionId>)
    requires ChainOk(before, family, chain)
    requires forall i :: 0 <= i < |chain| ==>
               chain[i] in before && chain[i] in after && after[chain[i]] == before[chain[i]]
    ensures ChainOk(after, family, chain)
  {
    forall i | 0 <= i < |chain| ensures LinkOk(after, family, chain, i) {
      assert LinkOk(before, family, chain, i);
    }
  }

  lemma ChainGrows(s: State, found: SessionId, id: SessionId, raw: Token, now: int, ttl: int)
    requires Inv(s) && found in s.sessions && id !in s.sessions && FreshToken(s.sessions, raw)
    requires ApplyRotate(s, found, id, raw, now, ttl).1.Issued?
    ensures var own := s.sessions[found].family;
            own in s.chains && ChainOk(ApplyRotate(s, found, id, raw, now, ttl).0.sessions, own, s.chains[own] + [id])
  {
    var after, own := ApplyRotate(s, found, id, raw, now, ttl).0, s.sessions[found].family;
    LiveIsLast(s, found);
    var chain := s.chains[own];
    forall i | 0 <= i < |chain| ensures chain[i] in s.sessions && LinkOk(after.sessions, own, chain + [id], i) {
      assert LinkOk(s.sessions, own, chain, i);
      assert LinkOk(s.sessions, own, chain, 0);
    }
    assert LinkOk(after.sessions, own, chain + [id], |chain|);
  }

  /** Rotation appends the new session to the family and links the old one to it. */
  lemma RotationKeepsInv(s: State, found: SessionId, id: SessionId, raw: Token, now: int, ttl: int)
    requires Inv(s) && found in s.sessions && id !in s.sessions && FreshToken(s.sessions, raw)
    requires ApplyRotate(s, found, id, raw, now, ttl).1.Issued?
    ensures Inv(ApplyRotate(s, found, id, raw, now, ttl).0)
  {
    var after := ApplyRotate(s, found, id, raw, now, ttl).0;
    var own := s.sessions[found].family;
    LiveIsLast(s, found);
    var chain := s.chains[own];
    assert after.chains[own] == chain + [id];
    forall family | family in after.chains ensures ChainOk(after.sessions, family, after.chains[family]) {
      if family != own {
        forall i | 0 <= i < |s.chains[family]| ensures s.chains[family][i] in s.sessions && s.chains[family][i] != found {
          assert LinkOk(s.sessions, family, s.chains[family], i);
        }
        ChainUntouched(s.sessions, after.sessions, family, s.chains[family]);
      } else {
        ChainGrows(s, found, id, raw, now, ttl);
      }
    }
    forall a | a in after.sessions
      ensures after.sessions[a].family in after.chains && a in after.chains[after.sessions[a].family]
    {
      if a == id {
        assert (chain + [id])[|chain|] == id;
      } else {
        assert s.sessions[a].family == after.sessions[a].family;
      }
    }
  }

  lemma RefreshKeepsInv(s: State, e: Event)
    requires Inv(s) && e.Refresh? && Legal(s, e)
    ensures Inv(Apply(s, e).0)
  {
    if Find(s.sessions, e.raw).Some? {
      var found := Find(s.sessions, e.raw).value;
      var (after, outcome) := ApplyRotate(s, found, e.id, e.next, e.now, e.ttl);
      if outcome.Issued? {
        RotationKeepsInv(s, found, e.id, e.next, e.now, e.ttl);
      } else {
        RevokingKeepsInv(s, after.sessions);
      }
    }
  }

  lemma LogoutKeepsInv(s: State, e: Event)
    requires Inv(s) && e.Logout? && Legal(s, e)
    ensures Inv(Apply(s, e).0)
  {
    RevokingKeepsInv(s, Apply(s, e).0.sessions);
  }

  lemma ChangePasswordKeepsInv(s: State, e: Event)
    requires Inv(s) && e.ChangePassword? && Legal(s, e)
    ensures Inv(Apply(s, e).0)
  {
    RevokingKeepsInv(s, RevokeUser(s.sessions, e.user, e.now));
  }

  /** Every legal step of every party preserves the invariant. */
  lemma StepKeepsInv(s: State, e: Event)
    requires Inv(s) && Legal(s, e)
    ensures Inv(Apply(s, e).0)
  {
    match e
    case Login(_, _, _, _, _, _, _) =>
      if Apply(s, e).1.Issued? {
        LoginKeepsInv(s, e);
      }
    case Refresh(_, _, _, _, _) => RefreshKeepsInv(s, e);
    case Logout(_, _) => LogoutKeepsInv(s, e);
    case ChangePassword(_, _, _, _, _) => ChangePasswordKeepsInv(s, e);
    case SetUser(_, _) =>
  }

  // ---- Runs -----------------------------------------------------------------------------------------------

  ghost predicate LegalRun(s: State, events: seq<Event>)
    decreases |events|
  {
    events == [] || (Legal(s, events[0]) && LegalRun(Apply(s, events[0]).0, events[1..]))
  }

  ghost function Run(s: State, events: seq<Event>): State
    decreases |events|
  {
    if events == [] then s else Run(Apply(s, events[0]).0, events[1..])
  }

  lemma {:induction false} RunKeepsInv(s: State, events: seq<Event>)
    requires Inv(s) && LegalRun(s, events)
    ensures Inv(Run(s, events))
    decreases |events|
  {
    if events != [] {
      StepKeepsInv(s, events[0]);
      RunKeepsInv(Apply(s, events[0]).0, events[1..]);
    }
  }

  /** A path along replacement links. */
  predicate LinkPath(sessions: Table, path: seq<SessionId>) {
    && (forall i :: 0 <= i < |path| ==> path[i] in sessions)
    && (forall i :: 0 <= i && i + 1 < |path| ==> sessions[path[i]].replacedBy == Some(path[i + 1]))
  }

  lemma {:induction false} PathFollowsChain(s: State, path: seq<SessionId>, n: nat) returns (start: nat)
    requires Inv(s) && LinkPath(s.sessions, path) && n < |path|
    ensures s.sessions[path[0]].family in s.chains
    ensures var chain := s.chains[s.sessions[path[0]].family];
            start + n < |chain| && forall i :: 0 <= i <= n ==> path[i] == chain[start + i]
  {
    var family := s.sessions[path[0]].family;
    var chain := s.chains[family];
    if n == 0 {
      start :| 0 <= start < |chain| && chain[start] == path[0];
    } else {
      start := PathFollowsChain(s, path, n - 1);
      assert LinkOk(s.sessions, family, chain, start + n - 1);
      assert s.sessions[path[n - 1]].replacedBy == Some(path[n]);
    }
  }

  /**
   * In every reachable state replacement links never form a cycle, stay within one family, and only the
   * last session along them can be unrevoked.
   */
  lemma LinksAreAcyclic(events: seq<Event>, path: seq<SessionId>, i: nat, j: nat)
    requires LegalRun(EMPTY, events) && LinkPath(Run(EMPTY, events).sessions, path) && i < j < |path|
    ensures var sessions := Run(EMPTY, events).sessions;
            && path[i] != path[j]
            && sessions[path[i]].family == sessions[path[j]].family
            && sessions[path[i]].revokedAt.Some?
  {
    RunKeepsInv(EMPTY, events);
    var s := Run(EMPTY, events);
    var start := PathFollowsChain(s, path, |path| - 1);
    var family := s.sessions[path[0]].family;
    assert LinkOk(s.sessions, family, s.chains[family], start + i);
    assert LinkOk(s.sessions, family, s.chains[family], start + j);
  }

  // ---- Reuse ------------------------------------------------------------------------------------------------

  /** A family none of whose sessions can be rotated any more. */
  predicate Dead(s: State, family: FamilyId) {
    && family in s.chains
    && (forall id :: id in s.sessions && s.sessions[id].family == family ==> s.sessions[id].revokedAt.Some?)
  }

  lemma DeadStep(s: State, e: Event, family: FamilyId)
    requires Inv(s) && Legal(s, e) && Dead(s, family)
    ensures Dead(Apply(s, e).0, family)
    ensures e.Refresh? && Find(s.sessions, e.raw).Some? && s.sessions[Find(s.sessions, e.raw).value].family == family ==>
              Apply(s, e).1.TokenReused?
  {}

  lemma {:induction false} DeadForever(s: State, events: seq<Event>, family: FamilyId)
    requires Inv(s) && LegalRun(s, events) && Dead(s, family)
    ensures Dead(Run(s, events), family)
    decreases |events|
  {
    if events != [] {
      DeadStep(s, events[0], family);
      StepKeepsInv(s, events[0]);
      DeadForever(Apply(s, events[0]).0, events[1..], family);
    }
  }

  /** Presenting any revoked token leaves its family without a usable token in every future. */
  lemma ReuseKillsFamily(s: State, id: SessionId, e: Event, events: seq<Event>, again: Event)
    requires Inv(s) && id in s.sessions && s.sessions[id].revokedAt.Some?
    requires e.Refresh? && e.raw == s.sessions[id].tokenHash.token && Legal(s, e)
    requires LegalRun(Apply(s, e).0, events)
    requires var later := Run(Apply(s, e).0, events);
             again.Refresh? && Legal(later, again)
             && Find(later.sessions, again.raw).Some?
             && later.sessions[Find(later.sessions, again.raw).value].family == s.sessions[id].family
    ensures Apply(s, e).1.TokenReused?
    ensures Dead(Run(Apply(s, e).0, events), s.sessions[id].family)
    ensures Apply(Run(Apply(s, e).0, events), again).1.TokenReused?
  {
    FoundIs(s, id);
    StepKeepsInv(s, e);
    var after := Apply(s, e).0;
    assert Dead(after, s.sessions[id].family);
    DeadForever(after, events, s.sessions[id].family);
    RunKeepsInv(after, events);
    DeadStep(Run(after, events), again, s.sessions[id].family);
  }

  /** A session once revoked stays revoked, so a token rotates at most once. */
  lemma {:induction false} RevokedForever(s: State, events: seq<Event>, id: SessionId)
    requires Inv(s) && LegalRun(s, events) && id in s.sessions && s.sessions[id].revokedAt.Some?
    ensures var later := Run(s, events);
            id in later.sessions && later.sessions[id].revokedAt.Some?
            && later.sessions[id].tokenHash == s.sessions[id].tokenHash
    decreases |events|
  {
    if events != [] {
      StepKeepsInv(s, events[0]);
      var after := Apply(s, events[0]).0;
      assert id in after.sessions && after.sessions[id].revokedAt.Some? && after.sessions[id].tokenHash == s.sessions[id].tokenHash;
      RevokedForever(after, events[1..], id);
    }
  }

  lemma RotatesOnce(s: State, e: Event, events: seq<Event>, again: Event)
    requires Inv(s) && Legal(s, e) && e.Refresh? && Apply(s, e).1.Issued?
    requires LegalRun(Apply(s, e).0, events)
    requires again.Refresh? && again.raw == e.raw && Legal(Run(Apply(s, e).0, events), again)
    ensures Apply(Run(Apply(s, e).0, events), again).1.TokenReused?
  {
    var id := Find(s.sessions, e.raw).value;
    StepKeepsInv(s, e);
    var after := Apply(s, e).0;
    RevokedForever(after, events, id);
    RunKeepsInv(after, events);
    FoundIs(Run(after, events), id);
  }

  /** A password change ends every family of the user for good. */
  lemma PasswordChangeEndsFamilies(s: State, e: Event, events: seq<Event>, id: SessionId)
    requires Inv(s) && e.ChangePassword? && Apply(s, e).1.Finished?
    requires id in s.sessions && s.sessions[id].user == e.user
    requires LegalRun(Apply(s, e).0, events)
    ensures Dead(Run(Apply(s, e).0, events), s.sessions[id].family)
  {
    var family := s.sessions[id].family;
    var chain := s.chains[family];
    var i :| 0 <= i < |chain| && chain[i] == id;
    assert LinkOk(s.sessions, family, chain, i);
    var after := Apply(s, e).0;
    forall a | a in after.sessions && after.sessions[a].family == family ensures after.sessions[a].revokedAt.Some? {
      var j :| 0 <= j < |chain| && chain[j] == a;
      assert LinkOk(s.sessions, family, chain, j);
    }
    StepKeepsInv(s, e);
    DeadForever(after, events, family);
  }

  // ---- What each request answers ----------------------------------------------------------------------

  /** Presenting the token of a stored session: revoked, expired, inactive user and rotation, each with all it changes. */
  lemma RefreshAnswer(s: State, e: Event, id: SessionId)
    requires Inv(s) && Legal(s, e) && e.Refresh? && id in s.sessions && s.sessions[id].tokenHash == HashOf(e.raw)
    ensures var session := s.sessions[id];
            var (after, outcome) := Apply(s, e);
            var active := session.user in s.users && s.users[session.user].active;
            && (outcome == TokenReused <==> session.revokedAt != None)
            && (outcome == TokenExpired <==> session.revokedAt == None && session.expiresAt <= e.now)
            && (outcome == Unauthenticated <==> session.revokedAt == None && e.now < session.expiresAt && !active)
            && (outcome == Issued <==> session.revokedAt == None && e.now < session.expiresAt && active)
            && after.users == s.users
            && (outcome == Unauthenticated ==> after == s)
            && (outcome == TokenExpired ==> after.sessions == s.sessions[id := session.(revokedAt := Some(e.now))])
            && (outcome == TokenReused ==>
                  after.sessions == map a | a in s.sessions ::
                    if s.sessions[a].family == session.family && s.sessions[a].revokedAt == None
                    then s.sessions[a].(revokedAt := Some(e.now)) else s.sessions[a])
            && (outcome == Issued ==>
                  after.sessions == s.sessions[id := session.(revokedAt := Some(e.now), replacedBy := Some(e.id))]
                                              [e.id := Session(session.user, HashOf(e.next), session.family, e.now, e.now + e.ttl,
                                                               None, None)])
  {
    FoundIs(s, id);
  }

  /** New tokens are issued exactly for a stored token that is neither revoked nor expired and whose user is active; a token
      no session stores is invalid and changes nothing. */
  lemma RefreshIssuedIff(s: State, e: Event)
    requires Inv(s) && Legal(s, e) && e.Refresh?
    ensures Apply(s, e).1 == Issued
            <==> exists id :: id in s.sessions && s.sessions[id].tokenHash == HashOf(e.raw) && s.sessions[id].revokedAt == None
                   && e.now < s.sessions[id].expiresAt
                   && s.sessions[id].user in s.users && s.users[s.sessions[id].user].active
    ensures Apply(s, e).1 == InvalidToken <==> forall id :: id in s.sessions ==> s.sessions[id].tokenHash != HashOf(e.raw)
    ensures Apply(s, e).1 == InvalidToken ==> Apply(s, e).0 == s
  {
    if Find(s.sessions, e.raw).Some? {
      var found := Find(s.sessions, e.raw).value;
      RefreshAnswer(s, e, found);
      forall id | id in s.sessions && s.sessions[id].tokenHash == HashOf(e.raw) ensures id == found {
        FoundIs(s, id);
      }
    }
  }

  /** A login issues tokens exactly for an active user with the right password, as one live session of a new family. */
  lemma LoginAnswer(s: State, e: Event)
    requires Legal(s, e) && e.Login?
    ensures var (after, outcome) := Apply(s, e);
            && (outcome == Issued <==> e.user in s.users && s.users[e.user].active && s.users[e.user].password == e.password)
            && (outcome != Issued ==> outcome == InvalidCredentials && after == s)
            && after.users == s.users
            && (outcome == Issued ==>
                  after.sessions == s.sessions[e.id := Session(e.user, HashOf(e.raw), e.family, e.now, e.now + e.ttl, None, None)])
  {}

  /** From then on a user made inactive gets no tokens, neither by password nor by a stored refresh token. */
  lemma InactiveIsShutOut(s: State, user: UserId, value: User, e: Event)
    requires Inv(s) && !value.active && Legal(Apply(s, SetUser(user, value)).0, e)
    requires || (e.Login? && e.user == user)
             || (e.Refresh? && exists id :: id in s.sessions && s.sessions[id].tokenHash == HashOf(e.raw) && s.sessions[id].user == user)
    ensures Apply(Apply(s, SetUser(user, value)).0, e).1 != Issued
  {
    var off := Apply(s, SetUser(user, value)).0;
    if id :| id in s.sessions && e.Refresh? && s.sessions[id].tokenHash == HashOf(e.raw) && s.sessions[id].user == user {
      FoundIs(off, id);
    }
  }

  /** A logout revokes exactly the presented session, if it is live. */
  lemma LogoutAnswer(s: State, e: Event)
    requires Inv(s) && e.Logout?
    ensures var (after, outcome) := Apply(s, e);
            && outcome == Finished && after.users == s.users && after.sessions.Keys == s.sessions.Keys
            && forall id :: id in s.sessions ==>
                 after.sessions[id] == if e.token == Some(s.sessions[id].tokenHash.token) && s.sessions[id].revokedAt == None
                                       then s.sessions[id].(revokedAt := Some(e.now)) else s.sessions[id]
  {
    forall id | id in s.sessions && e.token == Some(s.sessions[id].tokenHash.token)
      ensures Find(s.sessions, e.token.value) == Some(id)
    {
      FoundIs(s, id);
    }
  }

  /** A password change needs the current password and an acceptable new one; it revokes every live session of the user. */
  lemma ChangePasswordAnswer(s: State, e: Event)
    requires e.ChangePassword?
    ensures var (after, outcome) := Apply(s, e);
            var known := e.user in s.users && s.users[e.user].password == e.current;
            && (outcome == InvalidCredentials <==> !known)
            && (outcome == WeakPassword <==> known && !e.acceptable)
            && (outcome == Finished <==> known && e.acceptable)
            && (outcome != Finished ==> after == s)
            && (outcome == Finished ==>
                  && after.users == s.users[e.user := s.users[e.user].(password := e.next)]
                  && after.sessions == map id | id in s.sessions ::
                       if s.sessions[id].user == e.user && s.sessions[id].revokedAt == None
                       then s.sessions[id].(revokedAt := Some(e.now)) else s.sessions[id])
  {}

  // ---- The stored rows ----------------------------------------------------------------------------------------

  class RefreshTokenSession {
    const user: UserId
    const tokenHash: TokenHash
    const family: FamilyId
    const issuedAt: int
    const expiresAt: int
    var revokedAt: Option<int>
    var replacedBy: Option<SessionId>

    constructor (user: UserId, raw: Token, family: FamilyId, now: int, ttl: int)
      ensures Value() == Issue(user, raw, family, now, ttl)
    {
      this.user := user;
      tokenHash := HashOf(raw);
      this.family := family;
      issuedAt := now;
      expiresAt := now + ttl;
      revokedAt := None;
      replacedBy := None;
    }

    method Replace(id: SessionId, now: int)
      modifies this
      ensures Value() == old(Value()).(revokedAt := Some(now), replacedBy := Some(id))
    {
      revokedAt := Some(now);
      replacedBy := Some(id);
    }

    function Value(): Session
      reads this
    {
      Session(user, tokenHash, family, issuedAt, expiresAt, revokedAt, replacedBy)
    }
  }

  class AuthService {
    var users: map<UserId, User>
    var table: map<SessionId, RefreshTokenSession>
    ghost var chains: map<FamilyId, seq<SessionId>>

    ghost predicate Valid()
      reads this
    {
      forall a, b :: a in table && b in table && a != b ==> table[a] != table[b]
    }

    function Rows(): Table
      reads this, table.Values
    {
      map id | id in table :: table[id].Value()
    }

    ghost function View(): State
      reads this, table.Values
    {
      State(users, Rows(), chains)
    }

    constructor ()
      ensures Valid() && View() == EMPTY
    {
      users := map[];
      table := map[];
      chains := map[];
    }

    twostate lemma Kept()
      requires table == old(table)
      requires forall a :: a in table ==> unchanged(table[a])
      ensures Rows() == old(Rows())
    {}

    twostate lemma Stored(id: SessionId)
      requires table == old(table) && id in table
      requires forall a :: a in table && a != id ==> unchanged(table[a])
      ensures Rows() == old(Rows())[id := table[id].Value()]
    {}

    twostate lemma Inserted(id: SessionId, new row: RefreshTokenSession)
      requires table == old(table)[id := row]
      requires forall a :: a in old(table) ==> unchanged(old(table)[a])
      ensures Rows() == old(Rows())[id := row.Value()]
    {}

    method Login(user: UserId, password: Password, id: SessionId, raw: Token, family: FamilyId, now: int, ttl: int)
      returns (outcome: Outcome)
      requires Valid()
      modifies this`table, this`chains
      ensures Valid() && fresh(table.Values - old(table.Values))
      ensures (View(), outcome) == ApplyLogin(old(View()), user, password, id, raw, family, now, ttl)
    {
      if user !in users || !users[user].active || users[user].password != password { return InvalidCredentials; }
      var session := new RefreshTokenSession(user, raw, family, now, ttl);
      table := table[id := session];
      chains := chains[family := [id]];
      Inserted(id, session);
      return Issued;
    }

    /** The stored session holding a token: unique, because stored hashes are. */
    method Lookup(raw: Token) returns (found: Option<SessionId>)
      requires Valid() && Inv(View())
      ensures found == Find(Rows(), raw)
      ensures found.Some? ==> found.value in table
    {
      var rows := Rows();
      if exists id :: id in rows && rows[id].tokenHash == HashOf(raw) {
        var id :| id in rows && rows[id].tokenHash == HashOf(raw);
        FoundIs(View(), id);
        return Some(id);
      }
      return None;
    }

    method RevokeSessionsOf(family: FamilyId, now: int)
      requires Valid()
      modifies table.Values
      ensures Rows() == RevokeFamily(old(Rows()), family, now)
    {
      forall id | id in table && table[id].family == family && table[id].revokedAt.None? {
        table[id].revokedAt := Some(now);
      }
      assert forall id :: id in table ==>
               table[id].Value() == (if table[id].family == family then Revoke(old(table[id].Value()), now) else old(table[id].Value()));
    }

    method Refresh(raw: Token, id: SessionId, next: Token, now: int, ttl: int) returns (outcome: Outcome)
      requires Valid() && Inv(View()) && id !in table
      modifies this`table, this`chains, table.Values
      ensures Valid() && fresh(table.Values - old(table.Values))
      ensures (View(), outcome) == Apply(old(View()), Event.Refresh(raw, id, next, now, ttl))
    {
      var found := Lookup(raw);
      if found.None? { return InvalidToken; }
      outcome := Rotate(found.value, id, next, now, ttl);
    }

    method Rotate(presented: SessionId, id: SessionId, raw: Token, now: int, ttl: int) returns (outcome: Outcome)
      requires Valid() && presented in table && id !in table
      modifies this`table, this`chains, table.Values
      ensures Valid() && fresh(table.Values - old(table.Values))
      ensures (View(), outcome) == ApplyRotate(old(View()), presented, id, raw, now, ttl)
    {
      var session := table[presented];
      if session.revokedAt.Some? {
        RevokeSessionsOf(session.family, now);
        return TokenReused;
      }
      if session.expiresAt <= now {
        session.revokedAt := Some(now);
        Stored(presented);
        return TokenExpired;
      }
      if session.user !in users || !users[session.user].active { return Unauthenticated; }
      var replacement := new RefreshTokenSession(session.user, raw, session.family, now, ttl);
      table := table[id := replacement];
      if session.family in chains {
        chains := chains[session.family := chains[session.family] + [id]];
      }
      Inserted(id, replacement);
      label Replaced:
      session.Replace(id, now);
      Stored@Replaced(presented);
      return Issued;
    }

    method Logout(token: Option<Token>, now: int) returns (outcome: Outcome)
      requires Valid() && Inv(View())
      modifies table.Values
      ensures Valid() && (View(), outcome) == Apply(old(View()), Event.Logout(token, now))
    {
      if token.None? { return Finished; }
      var found := Lookup(token.value);
      if found.None? { return Finished; }
      var session := table[found.value];
      if session.revokedAt.None? {
        session.revokedAt := Some(now);
      }
      Stored(found.value);
      return Finished;
    }

    method ChangePassword(user: UserId, current: Password, next: Password, acceptable: bool, now: int) returns (outcome: Outcome)
      requires Valid()
      modifies this`users, table.Values
      ensures Valid() && (View(), outcome) == Apply(old(View()), Event.ChangePassword(user, current, next, acceptable, now))
    {
      if user !in users || users[user].password != current { return InvalidCredentials; }
      if !acceptable { return WeakPassword; }
      users := users[user := users[user].(password := next)];
      forall id | id in table && table[id].user == user && table[id].revokedAt.None? {
        table[id].revokedAt := Some(now);
      }
      assert forall id :: id in table ==>
               table[id].Value() == (if table[id].user == user then Revoke(old(table[id].Value()), now) else old(table[id].Value()));
      assert Rows() == RevokeUser(old(Rows()), user, now);
      return Finished;
    }
  }
}
