/** The account rows of services/aws_onboarding.py, changed in place; every method is proved against its step. */
module OnboardingService {
  import opened Prelude
  import opened Onboarding

  class AWSAccount {
    const org: OrgId
    const provider: Provider
    const externalId: ExternalId
    var name: string
    var role: Option<RoleArn>
    var status: Status
    var connection: Status
    var failure: Option<string>
    var validatedAt: Option<int>
    var token: Option<Token>
    var startedAt: Option<int>
    var version: nat

    constructor (org: OrgId, name: string, provider: Provider, externalId: ExternalId)
      ensures Value() == NewAccount(org, name, provider, externalId)
    {
      this.org := org;
      this.name := name;
      this.provider := provider;
      this.externalId := externalId;
      role, failure, validatedAt, token, startedAt := None, None, None, None, None;
      status, connection, version := Pending, Pending, 0;
    }

    function Value(): Account
      reads this
    {
      Account(org, name, provider, externalId, role, status, connection, failure, validatedAt, token, startedAt, version)
    }

    method SupersedeValidation()
      modifies this
      ensures Value() == Supersede(old(Value()))
    {
      token := None;
      startedAt := None;
      version := version + 1;
    }

    method Conclude(answer: Answer, now: int)
      modifies this
      ensures Value() == Settle(old(Value()), answer, now)
    {
      token := None;
      startedAt := None;
      version := version + 1;
      match answer {
        case Failure(reason) =>
          status, connection := Failed, Failed;
          failure := Some(reason);
        case Success =>
          status, connection := Connected, Connected;
          failure := None;
      }
      validatedAt := Some(now);
    }

    method AssignRole(arn: RoleArn)
      modifies this
      ensures Value() == WithRole(old(Value()), arn)
    {
      role := Some(arn);
      status, connection := Pending, Pending;
      failure := None;
      validatedAt := None;
      SupersedeValidation();
    }
  }

  class AWSOnboardingService {
    var table: map<AccountId, AWSAccount>
    var reservations: Reservations
    ghost var flights: map<Token, Flight>
    ghost var born: set<AccountId>

    constructor ()
      ensures Valid() && View() == EMPTY
    {
      table := map[];
      reservations := map[];
      flights := map[];
      born := {};
    }

    ghost predicate Valid()
      reads this
    {
      forall a, b :: a in table && b in table && a != b ==> table[a] != table[b]
    }

    function Rows(): Accounts
      reads this, table.Values
    {
      map id | id in table :: table[id].Value()
    }

    ghost function View(): State
      reads this, table.Values
    {
      State(Rows(), reservations, flights, born)
    }

    twostate lemma Stored(id: AccountId)
      requires table == old(table) && id in table
      requires forall a :: a in table && a != id ==> unchanged(table[a])
      ensures Rows() == old(Rows())[id := table[id].Value()]
    {}

    twostate lemma Inserted(id: AccountId, new row: AWSAccount)
      requires table == old(table)[id := row]
      requires forall a :: a in old(table) ==> unchanged(old(table)[a])
      ensures Rows() == old(Rows())[id := row.Value()]
    {}

    twostate lemma Removed(id: AccountId)
      requires table == old(table) - {id}
      requires forall a :: a in old(table) ==> unchanged(old(table)[a])
      ensures Rows() == old(Rows()) - {id}
    {}

    /** Try candidates in turn; a stored one is a uniqueness violation and the next is tried. */
    method ReserveExternalId(candidates: seq<ExternalId>) returns (ext: Option<ExternalId>)
      ensures ext == Unissued(reservations, candidates)
      ensures ext.Some? ==> ext.value in candidates && ext.value !in reservations
    {
      var i := 0;
      while i < |candidates|
        invariant 0 <= i <= |candidates|
        invariant Unissued(reservations, candidates) == Unissued(reservations, candidates[i..])
      {
        if candidates[i] !in reservations { return Some(candidates[i]); }
        assert candidates[i..][1..] == candidates[i + 1..];
        i := i + 1;
      }
      return None;
    }

    method CreateAccount(id: AccountId, org: OrgId, name: string, provider: Option<Provider>, candidates: seq<ExternalId>,
                         principals: bool, allowed: bool) returns (outcome: Outcome)
      requires Valid() && id !in table && |candidates| == ATTEMPTS
      modifies this
      ensures Valid() && fresh(table.Values - old(table.Values))
      ensures (View(), outcome) == Apply(old(View()), Create(id, org, name, provider, candidates, principals, allowed))
    {
      if !allowed { return Denied; }
      if !principals { return NoPrincipal; }
      if provider.None? { return InvalidAccountId; }
      if ProviderTaken(Rows(), org, provider.value) { return AccountExists; }
      var ext := ReserveExternalId(candidates);
      if ext.None? { return NoExternalId; }
      reservations := reservations[ext.value := Reservation(org, None, None)];
      var account := new AWSAccount(org, name, provider.value, ext.value);
      table := table[id := account];
      born := born + {id};
      reservations := reservations[ext.value := reservations[ext.value].(account := Some(id))];
      Inserted(id, account);
      assert reservations == old(reservations)[ext.value := Reservation(org, Some(id), None)];
      return Done;
    }

    method UpdateRole(id: AccountId, text: RoleText, allowed: bool) returns (outcome: Outcome)
      requires Valid()
      modifies table.Values
      ensures Valid() && (View(), outcome) == Apply(old(View()), Event.UpdateRole(id, text, allowed))
    {
      if id !in table || !allowed { return Denied; }
      var refusal := RoleRefusal(Rows(), id, text);
      if refusal.Some? { return refusal.value; }
      table[id].AssignRole(text.arn);
      Stored(id);
      return Done;
    }

    method UpdateAccount(id: AccountId, rename: Option<string>, text: Option<RoleText>, allowed: bool) returns (outcome: Outcome)
      requires Valid()
      modifies table.Values
      ensures Valid() && (View(), outcome) == Apply(old(View()), Event.UpdateAccount(id, rename, text, allowed))
    {
      if id !in table || !allowed { return Denied; }
      if text.Some? {
        var refusal := RoleRefusal(Rows(), id, text.value);
        if refusal.Some? { return refusal.value; }
      }
      var account := table[id];
      if rename.Some? { account.name := rename.value; }
      if text.Some? {
        account.AssignRole(text.value.arn);
      } else if rename.Some? {
        account.SupersedeValidation();
      }
      Stored(id);
      return Done;
    }

    /** The first half of validate_connection, up to its commit. */
    method StartValidation(id: AccountId, token: Token, now: int, allowed: bool) returns (outcome: Outcome)
      requires Valid()
      modifies this`flights, table.Values
      ensures Valid() && (View(), outcome) == Apply(old(View()), Event.StartValidation(id, token, now, allowed))
    {
      if id !in table || !allowed { return Denied; }
      var account := table[id];
      if account.role.None? { return RoleRequired; }
      if account.token.Some? { return AlreadyRunning; }
      flights := flights[token := Flight(id, account.role.value)];
      account.token := Some(token);
      account.startedAt := Some(now);
      account.version := account.version + 1;
      Stored(id);
      return Done;
    }

    /** The second half, once STS has answered. */
    method FinishValidation(id: AccountId, token: Token, answer: Answer, now: int, allowed: bool) returns (outcome: Outcome)
      requires Valid()
      modifies table.Values
      ensures Valid() && (View(), outcome) == Apply(old(View()), Event.FinishValidation(id, token, answer, now, allowed))
    {
      if id !in table || !allowed { return Denied; }
      var account := table[id];
      if account.token != Some(token) { return Superseded; }
      account.Conclude(answer, now);
      Stored(id);
      return Done;
    }

    method DisconnectAccount(id: AccountId, allowed: bool) returns (outcome: Outcome)
      requires Valid()
      modifies table.Values
      ensures Valid() && (View(), outcome) == Apply(old(View()), Disconnect(id, allowed))
    {
      if id !in table || !allowed { return Denied; }
      var account := table[id];
      if account.connection == Disconnected { return Done; }
      account.status, account.connection := Disconnected, Disconnected;
      account.failure := None;
      account.SupersedeValidation();
      Stored(id);
      return Done;
    }

    method DeleteAccount(id: AccountId, now: int, allowed: bool) returns (outcome: Outcome)
      requires Valid() && Inv(View())
      modifies this`table, this`reservations
      ensures Valid() && (View(), outcome) == Apply(old(View()), Delete(id, now, allowed))
    {
      if id !in table || !allowed { return Denied; }
      ReservationIs(View(), id);
      if !exists ext :: ext in reservations && reservations[ext].account == Some(id) { return ReservationMissing; }
      var ext :| ext in reservations && reservations[ext].account == Some(id);
      assert HolderOk(Rows(), ext, reservations[ext]);
      reservations := reservations[ext := reservations[ext].(account := None, retiredAt := Some(now))];
      table := table - {id};
      Removed(id);
      return Done;
    }
  }
}
