/** AWS account onboarding (services/aws_onboarding.py): a validation token superseded by any account change. */
module Onboarding {
  import opened Prelude

  type AccountId = nat
  type OrgId = nat
  type Token = nat
  type ExternalId = nat
  type Provider = nat
  datatype RoleArn = RoleArn(account: Provider, path: string)
  /** A role ARN as typed, after the pattern was applied to it. */
  datatype RoleText = Malformed | Matched(arn: RoleArn)
  datatype Status = Pending | Connected | Failed | Disconnected
  datatype Answer = Success | Failure(reason: string)

  datatype Account = Account(
    org: OrgId,
    name: string,
    provider: Provider,
    externalId: ExternalId,
    role: Option<RoleArn>,
    status: Status,
    connection: Status,
    failure: Option<string>,
    validatedAt: Option<int>,
    token: Option<Token>,
    startedAt: Option<int>,
    version: nat)

  datatype Reservation = Reservation(org: OrgId, account: Option<AccountId>, retiredAt: Option<int>)
  datatype Flight = Flight(account: AccountId, role: RoleArn)

  type Accounts = map<AccountId, Account>
  type Reservations = map<ExternalId, Reservation>

  /** flights and born are history: every validation ever started, with the role sent to STS, and every account id. */
  datatype State = State(accounts: Accounts, reservations: Reservations, flights: map<Token, Flight>, born: set<AccountId>)

  const EMPTY := State(map[], map[], map[], {})
  const ATTEMPTS := 10

  datatype Outcome =
    | Done | Denied | NoPrincipal | InvalidAccountId | AccountExists | NoExternalId | InvalidRoleArn | RoleMismatch | RoleExists
    | RoleRequired | AlreadyRunning | Superseded | ReservationMissing

  /** allowed: the actor is an active member of the account's organization with the managing capability. */
  datatype Event =
    | Create(id: AccountId, org: OrgId, name: string, provider: Option<Provider>, candidates: seq<ExternalId>,
             principals: bool, allowed: bool)
    | UpdateRole(id: AccountId, role: RoleText, allowed: bool)
    | UpdateAccount(id: AccountId, rename: Option<string>, text: Option<RoleText>, allowed: bool)
    | StartValidation(id: AccountId, token: Token, now: int, allowed: bool)
    | FinishValidation(id: AccountId, token: Token, answer: Answer, now: int, allowed: bool)
    | Disconnect(id: AccountId, allowed: bool)
    | Delete(id: AccountId, now: int, allowed: bool)

  // ---- Row changes --------------------------------------------------------------------------------

  function Supersede(a: Account): Account {
    a.(token := None, startedAt := None, version := a.version + 1)
  }

  function WithRole(a: Account, arn: RoleArn): Account {
    Supersede(a.(role := Some(arn), status := Pending, connection := Pending, failure := None, validatedAt := None))
  }

  function Settle(a: Account, answer: Answer, now: int): Account {
    var done := a.(token := None, startedAt := None, version := a.version + 1, validatedAt := Some(now));
    match answer
    case Success => done.(status := Connected, connection := Connected, failure := None)
    case Failure(reason) => done.(status := Failed, connection := Failed, failure := Some(reason))
  }

  predicate RoleTaken(accounts: Accounts, id: AccountId, arn: RoleArn)
    requires id in accounts
  {
    exists other :: other in accounts && other != id && accounts[other].org == accounts[id].org
      && accounts[other].role == Some(arn)
  }

  /** Why a role ARN cannot be stored on an account. */
  function RoleRefusal(accounts: Accounts, id: AccountId, text: RoleText): Option<Outcome>
    requires id in accounts
  {
    if text.Malformed? then Some(InvalidRoleArn)
    else if text.arn.account != accounts[id].provider then Some(RoleMismatch)
    else if RoleTaken(accounts, id, text.arn) then Some(RoleExists)
    else None
  }

  predicate ProviderTaken(accounts: Accounts, org: OrgId, provider: Provider) {
    exists other :: other in accounts && accounts[other].org == org && accounts[other].provider == provider
  }

  /** The first candidate never issued before, among the attempts the generator has. */
  function Unissued(reservations: Reservations, candidates: seq<ExternalId>): Option<ExternalId> {
    if candidates == [] then None
    else if candidates[0] !in reservations then Some(candidates[0])
    else Unissued(reservations, candidates[1..])
  }

  function NewAccount(org: OrgId, name: string, provider: Provider, externalId: ExternalId): Account {
    Account(org, name, provider, externalId, None, Pending, Pending, None, None, None, None, 0)
  }

  ghost function ReservationOf(reservations: Reservations, id: AccountId): Option<ExternalId> {
    if exists ext :: ext in reservations && reservations[ext].account == Some(id)
    then var ext :| ext in reservations && reservations[ext].account == Some(id); Some(ext)
    else None
  }

  // ---- Steps --------------------------------------------------------------------------------------

  function ApplyCreate(s: State, id: AccountId, org: OrgId, name: string, provider: Option<Provider>,
                       candidates: seq<ExternalId>, principals: bool, allowed: bool): (State, Outcome)
  {
    if !allowed then (s, Denied)
    else if !principals then (s, NoPrincipal)
    else if provider.None? then (s, InvalidAccountId)
    else if ProviderTaken(s.accounts, org, provider.value) then (s, AccountExists)
    else match Unissued(s.reservations, candidates)
      case None => (s, NoExternalId)
      case Some(ext) =>
        (s.(accounts := s.accounts[id := NewAccount(org, name, provider.value, ext)],
            reservations := s.reservations[ext := Reservation(org, Some(id), None)],
            born := s.born + {id}), Done)
  }

  function Stored(s: State, id: AccountId, row: Account): (State, Outcome) {
    (s.(accounts := s.accounts[id := row]), Done)
  }

  function ApplyUpdateRole(s: State, id: AccountId, text: RoleText): (State, Outcome)
    requires id in s.accounts
  {
    match RoleRefusal(s.accounts, id, text)
    case Some(refusal) => (s, refusal)
    case None => Stored(s, id, WithRole(s.accounts[id], text.arn))
  }

  /** The new name is written together with the role, or not at all. */
  function ApplyUpdateAccount(s: State, id: AccountId, name: Option<string>, text: Option<RoleText>): (State, Outcome)
    requires id in s.accounts
  {
    var a := s.accounts[id];
    var named := if name.Some? then a.(name := name.value) else a;
    if text.Some? then
      match RoleRefusal(s.accounts, id, text.value)
      case Some(refusal) => (s, refusal)
      case None => Stored(s, id, WithRole(named, text.value.arn))
    else if name.Some? then Stored(s, id, Supersede(named))
    else (s, Done)
  }

  function ApplyStart(s: State, id: AccountId, token: Token, now: int): (State, Outcome)
    requires id in s.accounts
  {
    var a := s.accounts[id];
    if a.role.None? then (s, RoleRequired)
    else if a.token.Some? then (s, AlreadyRunning)
    else
      (s.(accounts := s.accounts[id := a.(token := Some(token), startedAt := Some(now), version := a.version + 1)],
          flights := s.flights[token := Flight(id, a.role.value)]), Done)
  }

  function ApplyFinish(s: State, id: AccountId, token: Token, answer: Answer, now: int): (State, Outcome)
    requires id in s.accounts
  {
    if s.accounts[id].token != Some(token) then (s, Superseded)
    else Stored(s, id, Settle(s.accounts[id], answer, now))
  }

  function ApplyDisconnect(s: State, id: AccountId): (State, Outcome)
    requires id in s.accounts
  {
    var a := s.accounts[id];
    if a.connection == Disconnected then (s, Done)
    else Stored(s, id, Supersede(a.(status := Disconnected, connection := Disconnected, failure := None)))
  }

  ghost function ApplyDelete(s: State, id: AccountId, now: int): (State, Outcome)
    requires id in s.accounts
  {
    match ReservationOf(s.reservations, id)
    case None => (s, ReservationMissing)
    case Some(ext) =>
      (s.(accounts := s.accounts - {id},
          reservations := s.reservations[ext := s.reservations[ext].(account := None, retiredAt := Some(now))]), Done)
  }

  ghost function Apply(s: State, e: Event): (State, Outcome) {
    if e.Create? then ApplyCreate(s, e.id, e.org, e.name, e.provider, e.candidates, e.principals, e.allowed)
    else if e.id !in s.accounts || !e.allowed then (s, Denied)
    else
      match e
      case UpdateRole(id, role, _) => ApplyUpdateRole(s, id, role)
      case UpdateAccount(id, rename, text, _) => ApplyUpdateAccount(s, id, rename, text)
      case StartValidation(id, token, now, _) => ApplyStart(s, id, token, now)
      case FinishValidation(id, token, answer, now, _) => ApplyFinish(s, id, token, answer, now)
      case Disconnect(id, _) => ApplyDisconnect(s, id)
      case Delete(id, now, _) => ApplyDelete(s, id, now)
  }

  /** Account ids and validation tokens are fresh. */
  predicate Legal(s: State, e: Event) {
    && (e.Create? ==> e.id !in s.born)
    && (e.StartValidation? ==> e.token !in s.flights)
  }

  // ---- Invariant ----------------------------------------------------------------------------------

  predicate RowOk(a: Account) {
    && a.status == a.connection
    && (a.failure.Some? <==> a.connection == Failed)
    && (a.token.Some? <==> a.startedAt.Some?)
    && (a.connection in {Connected, Failed} || a.token.Some? ==> a.role.Some?)
    && (a.role.Some? ==> a.role.value.account == a.provider)
  }

  /** A stored token belongs to a validation of this account with the role now stored. */
  predicate TokenOk(flights: map<Token, Flight>, id: AccountId, a: Account) {
    a.token.Some? ==> a.role.Some? && a.token.value in flights && flights[a.token.value] == Flight(id, a.role.value)
  }

  predicate Issued(reservations: Reservations, id: AccountId, a: Account) {
    a.externalId in reservations && reservations[a.externalId] == Reservation(a.org, Some(id), None)
  }

  predicate Apart(a: Account, b: Account) {
    && a.externalId != b.externalId
    && (a.org == b.org ==> a.provider != b.provider && (a.role.Some? ==> a.role != b.role))
  }

  ghost predicate AccountsOk(s: State) {
    forall id :: id in s.accounts ==>
      id in s.born && RowOk(s.accounts[id]) && TokenOk(s.flights, id, s.accounts[id])
      && Issued(s.reservations, id, s.accounts[id])
  }

  ghost predicate AccountsApart(accounts: Accounts) {
    forall a, b :: a in accounts && b in accounts && a != b ==> Apart(accounts[a], accounts[b])
  }

  /** A reservation either belongs to the account holding it or is retired for good. */
  predicate HolderOk(accounts: Accounts, ext: ExternalId, r: Reservation) {
    if r.account.Some? then r.account.value in accounts && accounts[r.account.value].externalId == ext && r.retiredAt.None?
    else r.retiredAt.Some?
  }

  ghost predicate ReservationsOk(s: State) {
    forall ext :: ext in s.reservations ==> HolderOk(s.accounts, ext, s.reservations[ext])
  }

  ghost predicate Inv(s: State) {
    AccountsOk(s) && AccountsApart(s.accounts) && ReservationsOk(s)
  }

  lemma ReservationIs(s: State, id: AccountId)
    requires Inv(s) && id in s.accounts
    ensures ReservationOf(s.reservations, id) == Some(s.accounts[id].externalId)
  {
    assert Issued(s.reservations, id, s.accounts[id]);
    var ext := ReservationOf(s.reservations, id).value;
    assert HolderOk(s.accounts, ext, s.reservations[ext]);
  }

  lemma {:induction false} UnissuedIsNew(reservations: Reservations, candidates: seq<ExternalId>)
    ensures var r := Unissued(reservations, candidates);
            if r.Some? then r.value in candidates && r.value !in reservations
            else forall i :: 0 <= i < |candidates| ==> candidates[i] in reservations
  {
    if candidates != [] {
      UnissuedIsNew(reservations, candidates[1..]);
      assert candidates == [candidates[0]] + candidates[1..];
    }
  }

  lemma CreateKeepsInv(s: State, e: Event)
    requires Inv(s) && e.Create? && Legal(s, e)
    ensures Inv(Apply(s, e).0)
  {
    UnissuedIsNew(s.reservations, e.candidates);
    var after := Apply(s, e).0;
    if after != s {
      var ext := Unissued(s.reservations, e.candidates).value;
      forall id | id in s.accounts ensures Issued(after.reservations, id, s.accounts[id])
        && Apart(after.accounts[e.id], s.accounts[id]) && Apart(s.accounts[id], after.accounts[e.id])
      {
        assert Issued(s.reservations, id, s.accounts[id]);
      }
      forall x | x in after.reservations ensures HolderOk(after.accounts, x, after.reservations[x]) {
        assert x != ext ==> HolderOk(s.accounts, x, s.reservations[x]);
      }
    }
  }

  lemma DeleteKeepsInv(s: State, e: Event)
    requires Inv(s) && e.Delete?
    ensures Inv(Apply(s, e).0)
    ensures e.id in s.accounts && e.allowed ==> Apply(s, e).1.Done? && e.id !in Apply(s, e).0.accounts
  {
    var after := Apply(s, e).0;
    if e.id in s.accounts && e.allowed {
      ReservationIs(s, e.id);
      forall id | id in after.accounts ensures Issued(after.reservations, id, after.accounts[id]) {
        assert Apart(s.accounts[id], s.accounts[e.id]) && Issued(s.reservations, id, s.accounts[id]);
      }
      forall x | x in after.reservations ensures HolderOk(after.accounts, x, after.reservations[x]) {
        assert HolderOk(s.accounts, x, s.reservations[x]);
      }
    }
  }

  /** Replacing one row by a row that is in order itself keeps the invariant. */
  lemma RowKeepsInv(s: State, after: State, id: AccountId)
    requires Inv(s) && id in s.accounts && id in after.accounts
    requires after.accounts == s.accounts[id := after.accounts[id]]
    requires after.reservations == s.reservations && after.born == s.born
    requires forall t :: t in s.flights ==> t in after.flights && after.flights[t] == s.flights[t]
    requires var a, b := s.accounts[id], after.accounts[id];
             RowOk(b) && TokenOk(after.flights, id, b)
             && b.org == a.org && b.provider == a.provider && b.externalId == a.externalId
             && (b.role == a.role || (b.role.Some? && !RoleTaken(s.accounts, id, b.role.value)))
    ensures Inv(after)
  {
    forall other | other in s.accounts && other != id
      ensures Apart(after.accounts[id], s.accounts[other]) && Apart(s.accounts[other], after.accounts[id])
    {
      assert Apart(s.accounts[id], s.accounts[other]) && Apart(s.accounts[other], s.accounts[id]);
    }
    forall x | x in after.reservations ensures HolderOk(after.accounts, x, after.reservations[x]) {
      assert HolderOk(s.accounts, x, s.reservations[x]);
    }
  }

  /** An event other than creation and deletion writes at most one row, and keeps it in order. */
  lemma RowStep(s: State, e: Event)
    requires Inv(s) && Legal(s, e) && !e.Create? && !e.Delete? && Apply(s, e).0 != s
    ensures e.id in s.accounts && e.id in Apply(s, e).0.accounts
    ensures var after := Apply(s, e).0;
            && after.accounts == s.accounts[e.id := after.accounts[e.id]]
            && after.reservations == s.reservations && after.born == s.born
            && (forall t :: t in s.flights ==> t in after.flights && after.flights[t] == s.flights[t])
    ensures var after := Apply(s, e).0;
            var a, b := s.accounts[e.id], after.accounts[e.id];
            && RowOk(b) && TokenOk(after.flights, e.id, b)
            && b.org == a.org && b.provider == a.provider && b.externalId == a.externalId
            && (b.role == a.role || (b.role.Some? && !RoleTaken(s.accounts, e.id, b.role.value)))
  {}

  lemma StepKeepsInv(s: State, e: Event)
    requires Inv(s) && Legal(s, e)
    ensures Inv(Apply(s, e).0)
  {
    if e.Create? {
      CreateKeepsInv(s, e);
    } else if e.Delete? {
      DeleteKeepsInv(s, e);
    } else if Apply(s, e).0 != s {
      RowStep(s, e);
      RowKeepsInv(s, Apply(s, e).0, e.id);
    }
  }

  // ---- Runs ---------------------------------------------------------------------------------------

  ghost predicate LegalRun(s: State, events: seq<Event>)
    decreases |events|
  {
    events == [] || (LegalRun(s, events[..|events| - 1]) && Legal(Run(s, events[..|events| - 1]), events[|events| - 1]))
  }

  ghost function Run(s: State, events: seq<Event>): State
    decreases |events|
  {
    if events == [] then s else Apply(Run(s, events[..|events| - 1]), events[|events| - 1]).0
  }

  lemma {:induction false} RunKeepsInv(s: State, events: seq<Event>)
    requires Inv(s) && LegalRun(s, events)
    ensures Inv(Run(s, events))
    decreases |events|
  {
    if events != [] {
      RunKeepsInv(s, events[..|events| - 1]);
      StepKeepsInv(Run(s, events[..|events| - 1]), events[|events| - 1]);
    }
  }

  /** The row in force after the first k events. */
  ghost predicate HeldAt(s: State, events: seq<Event>, k: nat, id: AccountId, role: RoleArn)
    requires k <= |events|
  {
    var at := Run(s, events[..k]); id in at.accounts && at.accounts[id].role == Some(role)
  }

  /** The i-th event started the validation, and the role has been the stored one ever since. */
  ghost predicate StartedAt(s: State, events: seq<Event>, i: nat, id: AccountId, token: Token, role: RoleArn)
    requires i < |events|
  {
    && events[i].StartValidation? && events[i].id == id && events[i].token == token
    && Apply(Run(s, events[..i]), events[i]).1.Done?
    && (forall k :: i <= k <= |events| ==> HeldAt(s, events, k, id, role))
  }

  /** The j-th event was an accepted success of that validation. */
  ghost predicate AnsweredAt(s: State, events: seq<Event>, j: nat, id: AccountId, token: Token)
    requires j < |events|
  {
    && events[j].FinishValidation? && events[j].id == id && events[j].token == token && events[j].answer.Success?
    && Apply(Run(s, events[..j]), events[j]).1.Done?
  }

  lemma PrefixRuns(events: seq<Event>, n: nat)
    requires n <= |events|
    ensures forall k :: 0 <= k <= n ==> events[..n][..k] == events[..k]
  {}

  lemma Extend(s: State, events: seq<Event>, i: nat, id: AccountId, token: Token, role: RoleArn)
    requires events != [] && i < |events| - 1 && StartedAt(s, events[..|events| - 1], i, id, token, role)
    requires HeldAt(s, events, |events|, id, role)
    ensures StartedAt(s, events, i, id, token, role)
  {
    var init := events[..|events| - 1];
    PrefixRuns(events, |init|);
    forall k | i <= k <= |events| ensures HeldAt(s, events, k, id, role) {
      if k < |events| {
        assert init[..k] == events[..k];
        assert HeldAt(s, init, k, id, role);
      }
    }
  }

  lemma StillAnswered(s: State, events: seq<Event>, j: nat, id: AccountId, token: Token)
    requires events != [] && j < |events| - 1 && AnsweredAt(s, events[..|events| - 1], j, id, token)
    ensures AnsweredAt(s, events, j, id, token)
  {
    assert events[..|events| - 1][..j] == events[..j];
  }

  /** A step that leaves a token stored either found it there, with the same role, or is the start that stored it. */
  lemma TokenStep(s: State, e: Event, id: AccountId)
    requires Inv(s) && Legal(s, e) && id in Apply(s, e).0.accounts && Apply(s, e).0.accounts[id].token.Some?
    ensures id in s.accounts && Apply(s, e).0.accounts[id].role == s.accounts[id].role
    ensures var t := Apply(s, e).0.accounts[id].token;
            s.accounts[id].token == t
            || (e.StartValidation? && e.id == id && Some(e.token) == t && Apply(s, e).1.Done?)
  {}

  /** A step that leaves an account connected either found it connected, with the same role, or is an accepted success. */
  lemma ConnectedStep(s: State, e: Event, id: AccountId)
    requires Inv(s) && Legal(s, e) && id in Apply(s, e).0.accounts && Apply(s, e).0.accounts[id].connection == Connected
    ensures id in s.accounts && Apply(s, e).0.accounts[id].role == s.accounts[id].role
    ensures s.accounts[id].connection == Connected
            || (e.FinishValidation? && e.id == id && Some(e.token) == s.accounts[id].token && e.answer.Success?
                && Apply(s, e).1.Done?)
  {}

  /** A token is stored only since an accepted start, with the role unchanged in between. */
  lemma {:induction false} TokenProvenance(events: seq<Event>, id: AccountId)
    requires LegalRun(EMPTY, events)
    requires var s := Run(EMPTY, events); id in s.accounts && s.accounts[id].token.Some?
    ensures var a := Run(EMPTY, events).accounts[id];
            a.role.Some? && exists i :: 0 <= i < |events| && StartedAt(EMPTY, events, i, id, a.token.value, a.role.value)
    decreases |events|
  {
    var init, e := events[..|events| - 1], events[|events| - 1];
    RunKeepsInv(EMPTY, init);
    RunKeepsInv(EMPTY, events);
    var before, a := Run(EMPTY, init), Run(EMPTY, events).accounts[id];
    TokenStep(before, e, id);
    assert TokenOk(Run(EMPTY, events).flights, id, a);
    assert events[..|events|] == events && events[..|init|] == init;
    if before.accounts[id].token == a.token {
      TokenProvenance(init, id);
      var i :| 0 <= i < |init| && StartedAt(EMPTY, init, i, id, a.token.value, a.role.value);
      Extend(EMPTY, events, i, id, a.token.value, a.role.value);
    } else {
      JustStarted(events, init, id, a.token.value, a.role.value);
    }
  }

  lemma JustStarted(events: seq<Event>, init: seq<Event>, id: AccountId, token: Token, role: RoleArn)
    requires events != [] && init == events[..|events| - 1]
    requires var e := events[|events| - 1];
             e.StartValidation? && e.id == id && e.token == token && Apply(Run(EMPTY, init), e).1.Done?
    requires HeldAt(EMPTY, events, |init|, id, role) && HeldAt(EMPTY, events, |events|, id, role)
    ensures StartedAt(EMPTY, events, |init|, id, token, role)
  {
    assert events[..|init|] == init;
  }

  /** CONNECTED means: a validation was started with the role now stored, its success was accepted, and the
      role has not been anything else since the start. */
  lemma {:induction false} ConnectedProvenance(events: seq<Event>, id: AccountId)
    requires LegalRun(EMPTY, events)
    requires var s := Run(EMPTY, events); id in s.accounts && s.accounts[id].connection == Connected
    ensures var a := Run(EMPTY, events).accounts[id];
            && a.role.Some?
            && (exists i, j, token :: 0 <= i < j < |events|
                  && StartedAt(EMPTY, events, i, id, token, a.role.value) && AnsweredAt(EMPTY, events, j, id, token))
    decreases |events|
  {
    var init, e := events[..|events| - 1], events[|events| - 1];
    RunKeepsInv(EMPTY, init);
    RunKeepsInv(EMPTY, events);
    var before, a := Run(EMPTY, init), Run(EMPTY, events).accounts[id];
    ConnectedStep(before, e, id);
    assert RowOk(a);
    assert events[..|events|] == events && events[..|init|] == init;
    if before.accounts[id].connection == Connected {
      ConnectedProvenance(init, id);
      var i, j, token :| 0 <= i < j < |init| && StartedAt(EMPTY, init, i, id, token, a.role.value)
                          && AnsweredAt(EMPTY, init, j, id, token);
      Extend(EMPTY, events, i, id, token, a.role.value);
      StillAnswered(EMPTY, events, j, id, token);
    } else {
      TokenProvenance(init, id);
      var i :| 0 <= i < |init| && StartedAt(EMPTY, init, i, id, e.token, a.role.value);
      Extend(EMPTY, events, i, id, e.token, a.role.value);
      assert AnsweredAt(EMPTY, events, |init|, id, e.token);
    }
  }

  // ---- Superseded answers -------------------------------------------------------------------------

  /** A validation was started with this token, and its account no longer stores the token. */
  predicate Spent(s: State, token: Token) {
    && token in s.flights
    && var id := s.flights[token].account;
       id in s.born && (id in s.accounts ==> s.accounts[id].token != Some(token))
  }

  lemma SpentStep(s: State, e: Event, token: Token)
    requires Inv(s) && Legal(s, e) && Spent(s, token)
    ensures Spent(Apply(s, e).0, token)
    ensures e.FinishValidation? && e.token == token ==> Apply(s, e).0 == s && Apply(s, e).1 in {Superseded, Denied}
  {
    if e.FinishValidation? && e.token == token && e.id in s.accounts {
      assert TokenOk(s.flights, e.id, s.accounts[e.id]);
    }
  }

  /** Once superseded, an answer never writes anything, in any future. */
  lemma {:induction false} SpentForever(s: State, events: seq<Event>, token: Token, answer: Event)
    requires Inv(s) && LegalRun(s, events) && Spent(s, token)
    requires answer.FinishValidation? && answer.token == token
    ensures var later := Run(s, events);
            Spent(later, token) && Apply(later, answer).0 == later && Apply(later, answer).1 in {Superseded, Denied}
    decreases |events|
  {
    if events != [] {
      SpentForever(s, events[..|events| - 1], token, answer);
      RunKeepsInv(s, events[..|events| - 1]);
      SpentStep(Run(s, events[..|events| - 1]), events[|events| - 1], token);
    }
    RunKeepsInv(s, events);
    SpentStep(Run(s, events), answer, token);
  }

  /** The lifecycle version rises by one exactly when the row changes. */
  lemma VersionCountsChanges(s: State, e: Event, id: AccountId)
    requires Inv(s) && Legal(s, e) && id in s.accounts && id in Apply(s, e).0.accounts
    ensures var a, b := s.accounts[id], Apply(s, e).0.accounts[id];
            b.version == (if b == a then a.version else a.version + 1)
  {
    if e.Delete? {
      DeleteKeepsInv(s, e);
    }
  }

  /** A running validation survives a step exactly when the step leaves its account's row as it was. */
  lemma SupersededIff(s: State, e: Event, id: AccountId)
    requires Inv(s) && Legal(s, e) && id in s.accounts && s.accounts[id].token.Some?
    ensures var after := Apply(s, e).0;
            Spent(after, s.accounts[id].token.value) <==> !(id in after.accounts && after.accounts[id] == s.accounts[id])
  {
    assert TokenOk(s.flights, id, s.accounts[id]);
    if e.Delete? {
      DeleteKeepsInv(s, e);
    }
  }

  /** Disconnecting stops a running validation exactly when the account was not disconnected already. */
  lemma DisconnectStopsAnswerIff(s: State, id: AccountId, now: int)
    requires Inv(s) && id in s.accounts && s.accounts[id].token.Some?
    ensures var after := Apply(s, Disconnect(id, true)).0;
            var end := Apply(after, FinishValidation(id, s.accounts[id].token.value, Success, now, true)).0;
            && after.accounts[id].connection == Disconnected
            && (end.accounts[id].connection == Connected <==> s.accounts[id].connection == Disconnected)
  {}

  /** A validation started while an account is disconnected reconnects it, although it is disconnected again meanwhile. */
  lemma LateAnswerReconnects(s: State, id: AccountId, token: Token, now: int, later: int)
    requires Inv(s) && id in s.accounts && s.accounts[id].connection == Disconnected
    requires s.accounts[id].role.Some? && s.accounts[id].token.None? && token !in s.flights
    ensures var events := [StartValidation(id, token, now, true), Disconnect(id, true),
                           FinishValidation(id, token, Success, later, true)];
            && LegalRun(s, events)
            && id in Run(s, events).accounts && Run(s, events).accounts[id].connection == Connected
  {
    var start, stop := StartValidation(id, token, now, true), Disconnect(id, true);
    var finish := FinishValidation(id, token, Success, later, true);
    ThreeSteps(s, start, stop, finish);
    var s1 := Apply(s, start).0;
    assert s1.accounts[id].token == Some(token) && s1.accounts[id].connection == Disconnected;
    assert Apply(s1, stop).0 == s1;
  }

  /** Such a state is reached by registering an account, giving it a role and disconnecting it. */
  lemma DisconnectedIsReached()
    ensures var events := [Create(0, 0, "prod", Some(7), [5], true, true),
                           UpdateRole(0, Matched(RoleArn(7, "ReadOnly")), true), Disconnect(0, true)];
            && LegalRun(EMPTY, events)
            && var s := Run(EMPTY, events);
               Inv(s) && 0 in s.accounts && s.accounts[0].connection == Disconnected && s.accounts[0].role.Some?
               && s.accounts[0].token.None? && s.flights == map[]
  {
    var create, role := Create(0, 0, "prod", Some(7), [5], true, true), UpdateRole(0, Matched(RoleArn(7, "ReadOnly")), true);
    ThreeSteps(EMPTY, create, role, Disconnect(0, true));
    var s1 := Apply(EMPTY, create).0;
    assert s1.accounts == map[0 := NewAccount(0, "prod", 7, 5)] && s1.flights == map[];
    StepKeepsInv(EMPTY, create);
    var s2 := Apply(s1, role).0;
    assert s2.accounts[0] == WithRole(s1.accounts[0], RoleArn(7, "ReadOnly")) && s2.flights == map[];
    StepKeepsInv(s1, role);
    StepKeepsInv(s2, Disconnect(0, true));
  }

  lemma ThreeSteps(s: State, a: Event, b: Event, c: Event)
    ensures Run(s, [a, b, c]) == Apply(Apply(Apply(s, a).0, b).0, c).0
    ensures LegalRun(s, [a, b, c]) <==> Legal(s, a) && Legal(Apply(s, a).0, b) && Legal(Apply(Apply(s, a).0, b).0, c)
  {
    Snoc(s, [], a);
    Snoc(s, [a], b);
    Snoc(s, [a, b], c);
    assert [] + [a] == [a] && [a] + [b] == [a, b] && [a, b] + [c] == [a, b, c];
  }

  lemma Snoc(s: State, events: seq<Event>, e: Event)
    ensures Run(s, events + [e]) == Apply(Run(s, events), e).0
    ensures LegalRun(s, events + [e]) <==> LegalRun(s, events) && Legal(Run(s, events), e)
  {
    assert (events + [e])[..|events|] == events;
  }

  // ---- External ids -------------------------------------------------------------------------------

  /** A retired external id stays retired: no account ever holds it again. */
  lemma {:induction false} RetiredForever(s: State, events: seq<Event>, ext: ExternalId)
    requires Inv(s) && LegalRun(s, events) && ext in s.reservations && s.reservations[ext].account.None?
    ensures var later := Run(s, events);
            && ext in later.reservations && later.reservations[ext] == s.reservations[ext]
            && forall id :: id in later.accounts ==> later.accounts[id].externalId != ext
    decreases |events|
  {
    RunKeepsInv(s, events);
    var later := Run(s, events);
    if events != [] {
      RetiredForever(s, events[..|events| - 1], ext);
      RunKeepsInv(s, events[..|events| - 1]);
      RetiredStep(Run(s, events[..|events| - 1]), events[|events| - 1], ext);
    }
    forall id | id in later.accounts ensures later.accounts[id].externalId != ext {
      assert Issued(later.reservations, id, later.accounts[id]);
    }
  }

  lemma RetiredStep(s: State, e: Event, ext: ExternalId)
    requires Inv(s) && ext in s.reservations && s.reservations[ext].account.None?
    ensures ext in Apply(s, e).0.reservations && Apply(s, e).0.reservations[ext] == s.reservations[ext]
  {
    if e.Create? {
      UnissuedIsNew(s.reservations, e.candidates);
    } else if e.Delete? && e.id in s.accounts {
      ReservationIs(s, e.id);
    }
  }

  /** An account keeps the external id it was created with, and deleting it retires that id. */
  lemma ExternalIdFixed(s: State, e: Event, id: AccountId)
    requires Inv(s) && Legal(s, e) && id in s.accounts
    ensures var after := Apply(s, e).0;
            if id in after.accounts then after.accounts[id].externalId == s.accounts[id].externalId
            else e.Delete? && after.reservations[s.accounts[id].externalId] == Reservation(s.accounts[id].org, None, Some(e.now))
  {
    assert Issued(s.reservations, id, s.accounts[id]);
    if e.Delete? {
      ReservationIs(s, id);
    }
  }

  // ---- What each request answers ------------------------------------------------------------------

  /** A role ARN of the account's own provider account that no other account of the organization has. */
  ghost predicate Assignable(s: State, id: AccountId, text: RoleText)
    requires id in s.accounts
  {
    && text.Matched? && text.arn.account == s.accounts[id].provider
    && forall other :: other in s.accounts && other != id && s.accounts[other].org == s.accounts[id].org ==>
         s.accounts[other].role != Some(text.arn)
  }

  /** The row with a new role: connection and validation start over. */
  function Renewed(a: Account, name: string, arn: RoleArn): Account {
    Account(a.org, name, a.provider, a.externalId, Some(arn), Pending, Pending, None, None, None, None, a.version + 1)
  }

  lemma UpdateRoleAnswer(s: State, id: AccountId, text: RoleText)
    requires id in s.accounts
    ensures var (after, outcome) := Apply(s, UpdateRole(id, text, true));
            && (outcome == Done <==> Assignable(s, id, text))
            && (outcome == InvalidRoleArn <==> text.Malformed?)
            && (outcome == RoleMismatch <==> text.Matched? && text.arn.account != s.accounts[id].provider)
            && after == if outcome == Done then s.(accounts := s.accounts[id := Renewed(s.accounts[id], s.accounts[id].name, text.arn)])
                        else s
  {}

  /** A new name alone keeps role and connection, and supersedes; with a role, both are stored or neither is. */
  lemma UpdateAccountAnswer(s: State, id: AccountId, rename: Option<string>, text: Option<RoleText>)
    requires id in s.accounts
    ensures var (after, outcome) := Apply(s, UpdateAccount(id, rename, text, true));
            var a := s.accounts[id];
            var name := if rename.Some? then rename.value else a.name;
            && (outcome == Done <==> text.Some? ==> Assignable(s, id, text.value))
            && after == if outcome != Done || (text.None? && rename.None?) then s
                        else if text.Some? then s.(accounts := s.accounts[id := Renewed(a, name, text.value.arn)])
                        else s.(accounts := s.accounts[id := a.(name := name, token := None, startedAt := None, version := a.version + 1)])
  {}

  /** A validation starts exactly for an account with a role and no validation running. */
  lemma StartAnswer(s: State, id: AccountId, token: Token, now: int)
    requires id in s.accounts
    ensures var (after, outcome) := Apply(s, StartValidation(id, token, now, true));
            var a := s.accounts[id];
            && (outcome == RoleRequired <==> a.role == None)
            && (outcome == AlreadyRunning <==> a.role != None && a.token != None)
            && (outcome == Done <==> a.role != None && a.token == None)
            && after.reservations == s.reservations
            && (outcome != Done ==> after == s)
            && (outcome == Done ==>
                  && after.accounts == s.accounts[id := a.(token := Some(token), startedAt := Some(now), version := a.version + 1)]
                  && after.flights == s.flights[token := Flight(id, a.role.value)])
  {}

  /** An answer is written exactly when its token is the stored one: CONNECTED after a success, FAILED with the reason otherwise. */
  lemma FinishAnswer(s: State, id: AccountId, token: Token, answer: Answer, now: int)
    requires id in s.accounts
    ensures var (after, outcome) := Apply(s, FinishValidation(id, token, answer, now, true));
            var a := s.accounts[id];
            && (outcome == Done <==> a.token == Some(token)) && (outcome == Superseded <==> a.token != Some(token))
            && (outcome == Superseded ==> after == s)
            && (outcome == Done && answer == Success ==>
                  after == s.(accounts := s.accounts[id := Account(a.org, a.name, a.provider, a.externalId, a.role, Connected, Connected,
                                                                   None, Some(now), None, None, a.version + 1)]))
            && (outcome == Done && answer.Failure? ==>
                  after == s.(accounts := s.accounts[id := Account(a.org, a.name, a.provider, a.externalId, a.role, Failed, Failed,
                                                                   Some(answer.reason), Some(now), None, None, a.version + 1)]))
  {}

  lemma DisconnectAnswer(s: State, id: AccountId)
    requires id in s.accounts
    ensures var (after, outcome) := Apply(s, Disconnect(id, true));
            var a := s.accounts[id];
            && outcome == Done
            && after == if a.connection == Disconnected then s
                        else s.(accounts := s.accounts[id := Account(a.org, a.name, a.provider, a.externalId, a.role, Disconnected,
                                                                     Disconnected, None, a.validatedAt, None, None, a.version + 1)])
  {}

  /** Deleting removes the row and retires its reservation. */
  lemma DeleteAnswer(s: State, id: AccountId, now: int)
    requires Inv(s) && id in s.accounts
    ensures var (after, outcome) := Apply(s, Delete(id, now, true));
            var a := s.accounts[id];
            && outcome == Done && after.accounts == s.accounts - {id}
            && after.reservations == s.reservations[a.externalId := Reservation(a.org, None, Some(now))]
  {
    ReservationIs(s, id);
    assert Issued(s.reservations, id, s.accounts[id]);
  }

  /** An account is created exactly with configured principals, a valid account id new to the organization and an external id
      never issued; it is PENDING without a role. */
  lemma CreateAnswer(s: State, id: AccountId, org: OrgId, name: string, provider: Option<Provider>, candidates: seq<ExternalId>,
                     principals: bool)
    ensures var (after, outcome) := Apply(s, Create(id, org, name, provider, candidates, principals, true));
            var unissued := exists ext :: ext in candidates && ext !in s.reservations;
            var known := provider.Some? && exists a :: a in s.accounts && s.accounts[a].org == org && s.accounts[a].provider == provider.value;
            && (outcome == NoPrincipal <==> !principals)
            && (outcome == InvalidAccountId <==> principals && provider == None)
            && (outcome == AccountExists <==> principals && known)
            && (outcome == NoExternalId <==> principals && provider != None && !known && !unissued)
            && (outcome == Done <==> principals && provider != None && !known && unissued)
            && (outcome != Done ==> after == s)
            && (outcome == Done ==>
                  id in after.accounts
                  && var ext := after.accounts[id].externalId;
                     && ext in candidates && ext !in s.reservations
                     && after.accounts == s.accounts[id := Account(org, name, provider.value, ext, None, Pending, Pending, None, None,
                                                                   None, None, 0)]
                     && after.reservations == s.reservations[ext := Reservation(org, Some(id), None)])
  {
    UnissuedIsNew(s.reservations, candidates);
  }

  /** An actor without the capability, or an account that is not there, is refused and nothing changes. */
  lemma DeniedAnswer(s: State, e: Event)
    requires !e.allowed || (!e.Create? && e.id !in s.accounts)
    ensures Apply(s, e) == (s, Denied)
  {}
}
