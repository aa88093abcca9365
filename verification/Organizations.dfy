/** Memberships, role changes and last-owner protection (services/organizations.py). */
module Organizations {
  import opened Prelude

  type UserId = nat
  type OrgId = nat

  datatype Role = Owner | Admin | SecurityAnalyst | CloudEngineer | Auditor | Viewer
  datatype MemberStatus = Active | Suspended | Removed
  datatype Membership = Membership(role: Role, status: MemberStatus)

  /** An invitation as governance sees it: a role offered in an organization by an inviter. */
  datatype Offer = Offer(org: OrgId, role: Role, inviter: UserId)

  type Members = map<(OrgId, UserId), Membership>
  datatype State = State(orgs: set<OrgId>, members: Members, offers: set<Offer>)

  const EMPTY := State({}, map[], {})

  datatype Outcome =
    | Done
    | NotFound
    | Forbidden
    | OwnerManagementForbidden
    | OwnerAssignmentForbidden
    | UnsafeRoleAssignment
    | LastOwner
    | AlreadyMember
    | SlugInUse

  datatype Event =
    | Create(org: OrgId, user: UserId)
    | ChangeRole(org: OrgId, target: UserId, actor: UserId, role: Role)
    | ChangeStatus(org: OrgId, target: UserId, actor: UserId, status: MemberStatus)
    | Remove(org: OrgId, target: UserId, actor: UserId)
    | Invite(org: OrgId, actor: UserId, role: Role)
    | Join(offer: Offer, user: UserId)

  /** The role table's row for managing members and invitations. */
  predicate ManagesMembers(role: Role) { role.Owner? || role.Admin? }

  predicate CanAssignRole(actor: Role, target: Role) {
    actor.Owner? || (actor.Admin? && !target.Owner?)
  }

  /** The checks that come before any last-owner check; None lets the change proceed. */
  function ManageRefusal(actor: Role, target: Role, requested: Option<Role>): Option<Outcome> {
    if !actor.Owner? && !actor.Admin? then Some(Forbidden)
    else if target.Owner? && !actor.Owner? then Some(OwnerManagementForbidden)
    else if requested == Some(Owner) && !actor.Owner? then Some(OwnerAssignmentForbidden)
    else None
  }

  function CapabilityRefusal(members: Members, org: OrgId, actor: UserId): Option<Outcome> {
    if (org, actor) !in members || !members[(org, actor)].status.Active? then Some(NotFound)
    else if !ManagesMembers(members[(org, actor)].role) then Some(Forbidden)
    else None
  }

  predicate IsActiveOwner(members: Members, org: OrgId, user: UserId) {
    (org, user) in members && members[(org, user)] == Membership(Owner, Active)
  }

  function ActiveOwners(members: Members, org: OrgId): set<UserId> {
    set key | key in members && key.0 == org && IsActiveOwner(members, org, key.1) :: key.1
  }

  function ApplyChangeRole(s: State, org: OrgId, target: UserId, actor: UserId, role: Role): (State, Outcome) {
    match CapabilityRefusal(s.members, org, actor)
    case Some(refusal) => (s, refusal)
    case None =>
      if (org, target) !in s.members || s.members[(org, target)].status.Removed? then (s, NotFound)
      else
        var row := s.members[(org, target)];
        match ManageRefusal(s.members[(org, actor)].role, row.role, Some(role))
        case Some(refusal) => (s, refusal)
        case None =>
          if row.role.Owner? && !role.Owner? && |ActiveOwners(s.members, org)| <= 1 then (s, LastOwner)
          else (s.(members := s.members[(org, target) := row.(role := role)]), Done)
  }

  function ApplyChangeStatus(s: State, org: OrgId, target: UserId, actor: UserId, status: MemberStatus)
    : (State, Outcome)
  {
    match CapabilityRefusal(s.members, org, actor)
    case Some(refusal) => (s, refusal)
    case None =>
      if (org, target) !in s.members || s.members[(org, target)].status.Removed? then (s, NotFound)
      else
        var row := s.members[(org, target)];
        match ManageRefusal(s.members[(org, actor)].role, row.role, None)
        case Some(refusal) => (s, refusal)
        case None =>
          if row.role.Owner? && status.Suspended? && |ActiveOwners(s.members, org)| <= 1 then (s, LastOwner)
          else (s.(members := s.members[(org, target) := row.(status := status)]), Done)
  }

  /** Removing an absent or already removed member is a silent no-op. */
  function ApplyRemove(s: State, org: OrgId, target: UserId, actor: UserId): (State, Outcome) {
    match CapabilityRefusal(s.members, org, actor)
    case Some(refusal) => (s, refusal)
    case None =>
      if (org, target) !in s.members || s.members[(org, target)].status.Removed? then (s, Done)
      else
        var row := s.members[(org, target)];
        match ManageRefusal(s.members[(org, actor)].role, row.role, None)
        case Some(refusal) => (s, refusal)
        case None =>
          if row.role.Owner? && |ActiveOwners(s.members, org)| <= 1 then (s, LastOwner)
          else (s.(members := s.members[(org, target) := row.(status := Removed)]), Done)
  }

  function ApplyInvite(s: State, org: OrgId, actor: UserId, role: Role): (State, Outcome) {
    match CapabilityRefusal(s.members, org, actor)
    case Some(refusal) => (s, refusal)
    case None =>
      if !CanAssignRole(s.members[(org, actor)].role, role) then (s, UnsafeRoleAssignment)
      else (s.(offers := s.offers + {Offer(org, role, actor)}), Done)
  }

  /** The membership half of accepting an invitation. */
  function ApplyJoin(s: State, offer: Offer, user: UserId): (State, Outcome) {
    if (offer.org, user) in s.members && !s.members[(offer.org, user)].status.Removed? then (s, AlreadyMember)
    else (s.(members := s.members[(offer.org, user) := Membership(offer.role, Active)]), Done)
  }

  function Apply(s: State, e: Event): (State, Outcome) {
    match e
    case Create(org, user) =>
      (s.(orgs := s.orgs + {org}, members := s.members[(org, user) := Membership(Owner, Active)]), Done)
    case ChangeRole(org, target, actor, role) => ApplyChangeRole(s, org, target, actor, role)
    case ChangeStatus(org, target, actor, status) => ApplyChangeStatus(s, org, target, actor, status)
    case Remove(org, target, actor) => ApplyRemove(s, org, target, actor)
    case Invite(org, actor, role) => ApplyInvite(s, org, actor, role)
    case Join(offer, user) => ApplyJoin(s, offer, user)
  }

  /** What the environment guarantees: identifiers are fresh and only real invitations are accepted. */
  predicate Legal(s: State, e: Event) {
    match e
    case Create(org, user) => org !in s.orgs
    case Join(offer, user) => offer in s.offers
    case _ => true
  }

  /** The status endpoint's request schema admits only these two values. */
  predicate StatusAllowed(e: Event) {
    e.ChangeStatus? ==> !e.status.Removed?
  }

  // ---- At least one active owner -------------------------------------------------------

  ghost predicate EveryOrgOwned(s: State) {
    forall org :: org in s.orgs ==> exists user :: IsActiveOwner(s.members, org, user)
  }

  /** The one way to lose an organization's last active owner: the sole owner sets its own membership to REMOVED. */
  ghost predicate DropsLastOwner(s: State, e: Event) {
    && e.ChangeStatus? && e.status.Removed? && e.org in s.orgs
    && e.actor == e.target && IsActiveOwner(s.members, e.org, e.target)
    && (forall user :: IsActiveOwner(s.members, e.org, user) ==> user == e.target)
  }

  lemma OwnerKept(s: State, e: Event, org: OrgId)
    requires EveryOrgOwned(s) && org in s.orgs && !DropsLastOwner(s, e)
    ensures exists user :: IsActiveOwner(Apply(s, e).0.members, org, user)
  {
    var after := Apply(s, e).0;
    var user :| IsActiveOwner(s.members, org, user);
    if !IsActiveOwner(after.members, org, user) {
      assert !e.Invite? && !e.Create? && !e.Join?;
      assert e.org == org && e.target == user;
      if !(e.ChangeStatus? && e.status.Removed?) {
        var other := AnotherMember(ActiveOwners(s.members, org), user);
        assert IsActiveOwner(after.members, org, other);
      } else if e.actor != user {
        assert IsActiveOwner(after.members, org, e.actor);
      } else {
        var other :| IsActiveOwner(s.members, org, other) && other != user;
        assert IsActiveOwner(after.members, org, other);
      }
    }
  }

  /** One step keeps every organization owned exactly when it is not the sole owner setting itself to REMOVED. */
  lemma StepKeepsOwnersIff(s: State, e: Event)
    requires EveryOrgOwned(s) && Legal(s, e)
    ensures EveryOrgOwned(Apply(s, e).0) <==> !DropsLastOwner(s, e)
  {
    var after := Apply(s, e).0;
    if DropsLastOwner(s, e) {
      var org, target := e.org, e.target;
      forall user ensures !IsActiveOwner(after.members, org, user) {
        assert IsActiveOwner(after.members, org, user) ==> IsActiveOwner(s.members, org, user) && user != target;
      }
      assert e.org in after.orgs;
    } else {
      forall org | org in after.orgs ensures exists user :: IsActiveOwner(after.members, org, user) {
        if org in s.orgs {
          OwnerKept(s, e, org);
        } else {
          assert IsActiveOwner(after.members, org, e.user);
        }
      }
    }
  }

  /** The membership an event would write if last owners were not protected. */
  function Unprotected(s: State, e: Event): Members
    requires (e.ChangeRole? || e.ChangeStatus? || e.Remove?) && (e.org, e.target) in s.members
  {
    var row := s.members[(e.org, e.target)];
    s.members[(e.org, e.target) := match e
                                   case ChangeRole(_, _, _, role) => row.(role := role)
                                   case ChangeStatus(_, _, _, status) => row.(status := status)
                                   case _ => row.(status := Removed)]
  }

  /** A last-owner refusal is needed exactly when the target is an active owner; a suspended owner is refused as well. */
  lemma LastOwnerRefusalNeededIff(s: State, e: Event)
    requires EveryOrgOwned(s) && (e.ChangeRole? || e.ChangeStatus? || e.Remove?) && e.org in s.orgs
    requires Apply(s, e).1.LastOwner?
    ensures (e.org, e.target) in s.members
    ensures (forall user :: !IsActiveOwner(Unprotected(s, e), e.org, user)) <==> IsActiveOwner(s.members, e.org, e.target)
  {
    var org, target := e.org, e.target;
    var after := Unprotected(s, e);
    if IsActiveOwner(s.members, org, target) {
      forall user ensures !IsActiveOwner(after, org, user) {
        assert IsActiveOwner(after, org, user) ==> user in ActiveOwners(s.members, org) && user != target;
        OnlyOwner(s.members, org, target, user);
      }
    } else {
      var user :| IsActiveOwner(s.members, org, user);
      assert IsActiveOwner(after, org, user);
    }
  }

  /** A history in which removing a suspended owner is refused, although the active owner would remain. */
  lemma SuspendedOwnerIsRefused()
    ensures exists states: seq<State>, events: seq<Event> :: IsRun(states, events) && |events| == 4
              && var s := states[4];
                 && s.members == map[(1, 7) := Membership(Owner, Active), (1, 8) := Membership(Owner, Suspended)]
                 && Apply(s, Remove(1, 8, 7)).1.LastOwner?
                 && IsActiveOwner(Unprotected(s, Remove(1, 8, 7)), 1, 7)
  {
    var offer := Offer(1, Owner, 7);
    var e0, e1, e2, e3 := Create(1, 7), Invite(1, 7, Owner), Join(offer, 8), ChangeStatus(1, 8, 7, Suspended);
    var s1 := Apply(EMPTY, e0).0;
    var s2 := Apply(s1, e1).0;
    assert s2 == State({1}, map[(1, 7) := Membership(Owner, Active)], {offer});
    var s3 := Apply(s2, e2).0;
    assert s3.members == map[(1, 7) := Membership(Owner, Active), (1, 8) := Membership(Owner, Active)];
    TwoOwners(s3.members, 1, 7, 8);
    var s4 := Apply(s3, e3).0;
    assert s4.members == map[(1, 7) := Membership(Owner, Active), (1, 8) := Membership(Owner, Suspended)];
    assert ActiveOwners(s4.members, 1) == {7};
    assert IsActiveOwner(Unprotected(s4, Remove(1, 8, 7)), 1, 7);
    var states, events := [EMPTY, s1, s2, s3, s4], [e0, e1, e2, e3];
    assert IsRun(states, events);
    assert states[4] == s4;
  }

  lemma TwoOwners(members: Members, org: OrgId, a: UserId, b: UserId)
    requires a != b && IsActiveOwner(members, org, a) && IsActiveOwner(members, org, b)
    ensures |ActiveOwners(members, org)| >= 2
  {
    assert (org, a) in members && (org, b) in members;
    SubsetCount({a, b}, ActiveOwners(members, org));
  }

  lemma OnlyOwner(members: Members, org: OrgId, a: UserId, b: UserId)
    requires |ActiveOwners(members, org)| <= 1 && IsActiveOwner(members, org, a)
    ensures b in ActiveOwners(members, org) ==> b == a
  {
    var owners := ActiveOwners(members, org);
    assert (org, a) in members;
    if b in owners {
      SubsetCount({a, b}, owners);
      assert a != b ==> |{a, b}| == 2;
    }
  }

  /** An existing membership is changed only by an active OWNER, by an active ADMIN when neither the old nor the new role is
      OWNER, or by its own user joining again after removal. */
  lemma ChangesNeedAuthority(s: State, e: Event, org: OrgId, user: UserId)
    requires Legal(s, e) && (org, user) in s.members && !e.Create?
    requires Apply(s, e).0.members[(org, user)] != s.members[(org, user)]
    ensures if e.Join? then e.user == user && e.offer.org == org && s.members[(org, user)].status.Removed?
            else !e.Invite? && e.org == org && e.target == user
                 && (org, e.actor) in s.members && s.members[(org, e.actor)].status.Active?
                 && var actor, before := s.members[(org, e.actor)].role, s.members[(org, user)];
                    var after := Apply(s, e).0.members[(org, user)];
                    && (actor.Owner? || (actor.Admin? && !before.role.Owner? && !after.role.Owner?))
                    && !before.status.Removed?
  {}

  /** The service method itself does not refuse REMOVED: this run loses the only owner. */
  lemma StatusRemovedDropsOwner()
    ensures var s := Apply(EMPTY, Create(1, 7)).0;
            EveryOrgOwned(s) && Apply(s, ChangeStatus(1, 7, 7, Removed)).1 == Done
            && !EveryOrgOwned(Apply(s, ChangeStatus(1, 7, 7, Removed)).0)
  {
    var s := Apply(EMPTY, Create(1, 7)).0;
    var e := ChangeStatus(1, 7, 7, Removed);
    assert IsActiveOwner(s.members, 1, 7);
    assert forall org :: org in s.orgs ==> org == 1;
    assert DropsLastOwner(s, e);
    StepKeepsOwnersIff(s, e);
  }

  // ---- What each request answers ----------------------------------------------------------

  /** An active OWNER or ADMIN of the organization. */
  predicate Manages(members: Members, org: OrgId, actor: UserId) {
    (org, actor) in members && members[(org, actor)].status == Active && members[(org, actor)].role in {Owner, Admin}
  }

  /** The target is a member that was not removed, and an OWNER only if the actor is one. */
  predicate MayManage(members: Members, org: OrgId, target: UserId, actor: UserId) {
    Manages(members, org, actor) && (org, target) in members && members[(org, target)].status != Removed
    && (members[(org, target)].role == Owner ==> members[(org, actor)].role == Owner)
  }

  /** At most one active OWNER is left. */
  ghost predicate AtMostOneOwner(members: Members, org: OrgId) {
    forall a: UserId, b: UserId :: IsActiveOwner(members, org, a) && IsActiveOwner(members, org, b) ==> a == b
  }

  lemma OwnerCount(members: Members, org: OrgId)
    ensures |ActiveOwners(members, org)| <= 1 <==> AtMostOneOwner(members, org)
  {
    if |ActiveOwners(members, org)| <= 1 {
      forall a: UserId, b: UserId | IsActiveOwner(members, org, a) && IsActiveOwner(members, org, b) ensures a == b {
        assert (org, b) in members;
        OnlyOwner(members, org, a, b);
      }
    } else {
      var a :| a in ActiveOwners(members, org);
      var b := AnotherMember(ActiveOwners(members, org), a);
      assert IsActiveOwner(members, org, a) && IsActiveOwner(members, org, b);
    }
  }

  /** A role change is done exactly for an authorized actor unless it demotes the last owner, and stores the requested role. */
  lemma ChangeRoleAnswer(s: State, org: OrgId, target: UserId, actor: UserId, role: Role)
    ensures var (after, outcome) := ApplyChangeRole(s, org, target, actor, role);
            var may := MayManage(s.members, org, target, actor) && (role == Owner ==> s.members[(org, actor)].role == Owner);
            && (outcome == Done <==> may && !(s.members[(org, target)].role == Owner && role != Owner && AtMostOneOwner(s.members, org)))
            && (outcome == LastOwner <==> may && s.members[(org, target)].role == Owner && role != Owner && AtMostOneOwner(s.members, org))
            && after.orgs == s.orgs && after.offers == s.offers
            && after.members == if outcome == Done
                                then s.members[(org, target) := Membership(role, s.members[(org, target)].status)] else s.members
  {
    OwnerCount(s.members, org);
  }

  /** A status change is done exactly for an authorized actor unless it suspends the last owner, and stores the requested status. */
  lemma ChangeStatusAnswer(s: State, org: OrgId, target: UserId, actor: UserId, status: MemberStatus)
    ensures var (after, outcome) := ApplyChangeStatus(s, org, target, actor, status);
            var may := MayManage(s.members, org, target, actor);
            && (outcome == Done <==> may && !(s.members[(org, target)].role == Owner && status == Suspended && AtMostOneOwner(s.members, org)))
            && (outcome == LastOwner <==> may && s.members[(org, target)].role == Owner && status == Suspended && AtMostOneOwner(s.members, org))
            && after.orgs == s.orgs && after.offers == s.offers
            && after.members == if outcome == Done
                                then s.members[(org, target) := Membership(s.members[(org, target)].role, status)] else s.members
  {
    OwnerCount(s.members, org);
  }

  /** A member is removed exactly by an authorized actor unless it is the last owner; removing nobody is done silently. */
  lemma RemoveAnswer(s: State, org: OrgId, target: UserId, actor: UserId)
    ensures var (after, outcome) := ApplyRemove(s, org, target, actor);
            var may := MayManage(s.members, org, target, actor);
            var last := may && s.members[(org, target)].role == Owner && AtMostOneOwner(s.members, org);
            var absent := Manages(s.members, org, actor) && ((org, target) !in s.members || s.members[(org, target)].status == Removed);
            && (outcome == Done <==> absent || (may && !last)) && (outcome == LastOwner <==> last)
            && after.orgs == s.orgs && after.offers == s.offers
            && after.members == if may && !last
                                then s.members[(org, target) := Membership(s.members[(org, target)].role, Removed)] else s.members
  {
    OwnerCount(s.members, org);
  }

  /** An invitation is offered exactly by an active OWNER, or by an active ADMIN for a role other than OWNER. */
  lemma InviteAnswer(s: State, org: OrgId, actor: UserId, role: Role)
    ensures var (after, outcome) := ApplyInvite(s, org, actor, role);
            && (outcome == Done <==> Manages(s.members, org, actor) && (role == Owner ==> s.members[(org, actor)].role == Owner))
            && after.orgs == s.orgs && after.members == s.members
            && after.offers == if outcome == Done then s.offers + {Offer(org, role, actor)} else s.offers
  {}

  /** Joining makes the user an active member with the offered role, unless it is a member already. */
  lemma JoinAnswer(s: State, offer: Offer, user: UserId)
    ensures var (after, outcome) := ApplyJoin(s, offer, user);
            var member := (offer.org, user) in s.members && s.members[(offer.org, user)].status != Removed;
            && outcome == (if member then AlreadyMember else Done) && after.orgs == s.orgs && after.offers == s.offers
            && after.members == if member then s.members else s.members[(offer.org, user) := Membership(offer.role, Active)]
  {}

  // ---- Runs -----------------------------------------------------------------------------

  /** A run from the empty system: the states visited and the events between them. */
  ghost predicate IsRun(states: seq<State>, events: seq<Event>) {
    && |states| == |events| + 1
    && states[0] == EMPTY
    && (forall i :: 0 <= i < |events| ==> Legal(states[i], events[i]) && states[i + 1] == Apply(states[i], events[i]).0)
  }

  /** Over every run whose status changes obey the request schema, every organization stays owned. */
  lemma {:induction false} RunKeepsOwners(states: seq<State>, events: seq<Event>, i: nat)
    requires IsRun(states, events) && i < |states|
    requires forall j :: 0 <= j < |events| ==> StatusAllowed(events[j])
    ensures EveryOrgOwned(states[i])
  {
    if i > 0 {
      RunKeepsOwners(states, events, i - 1);
      assert StatusAllowed(events[i - 1]) && states[i] == Apply(states[i - 1], events[i - 1]).0;
      StepKeepsOwnersIff(states[i - 1], events[i - 1]);
    }
  }

  // ---- Where OWNER comes from -----------------------------------------------------------

  predicate HasOwnerRole(s: State, org: OrgId, user: UserId) {
    (org, user) in s.members && s.members[(org, user)].role.Owner?
  }

  /** Event k invited someone as OWNER, and its actor was an active OWNER when it did. */
  ghost predicate OwnerOffered(states: seq<State>, events: seq<Event>, k: nat, offer: Offer) {
    && k < |events| && k < |states|
    && events[k] == Invite(offer.org, offer.inviter, Owner)
    && IsActiveOwner(states[k].members, offer.org, offer.inviter)
  }

  /** Event j made user an OWNER of org with authority. */
  ghost predicate OwnerGranted(states: seq<State>, events: seq<Event>, j: nat, org: OrgId, user: UserId) {
    && j < |events| && j < |states|
    && match events[j]
       case Create(o, u) => o == org && u == user
       case ChangeRole(o, target, actor, role) =>
         o == org && target == user && role.Owner? && IsActiveOwner(states[j].members, org, actor)
       case Join(offer, u) =>
         && offer.org == org && u == user && offer.role.Owner?
         && exists k :: 0 <= k < j && OwnerOffered(states, events, k, offer)
       case _ => false
  }

  lemma {:induction false} OfferProvenance(states: seq<State>, events: seq<Event>, i: nat, offer: Offer)
    requires IsRun(states, events) && i < |states|
    requires offer in states[i].offers && offer.role.Owner?
    ensures exists k :: 0 <= k < i && OwnerOffered(states, events, k, offer)
  {
    assert i > 0;
    assert states[i] == Apply(states[i - 1], events[i - 1]).0;
    if offer in states[i - 1].offers {
      OfferProvenance(states, events, i - 1, offer);
      var k :| 0 <= k < i - 1 && OwnerOffered(states, events, k, offer);
    } else {
      assert OwnerOffered(states, events, i - 1, offer);
    }
  }

  /**
   * Every OWNER role held at any point of any run was granted by creation, by an actor who was an
   * active OWNER, or through an invitation sent by an actor who was one, and was held ever since.
   */
  lemma {:induction false} OwnerProvenance(states: seq<State>, events: seq<Event>, i: nat, org: OrgId, user: UserId)
    requires IsRun(states, events) && i < |states| && HasOwnerRole(states[i], org, user)
    ensures exists j ::
              && 0 <= j < i && OwnerGranted(states, events, j, org, user)
              && (forall m :: j < m <= i ==> HasOwnerRole(states[m], org, user))
  {
    assert i > 0;
    var before, e := states[i - 1], events[i - 1];
    assert Legal(before, e) && states[i] == Apply(before, e).0;
    if HasOwnerRole(before, org, user) {
      OwnerProvenance(states, events, i - 1, org, user);
      var j :| && 0 <= j < i - 1 && OwnerGranted(states, events, j, org, user)
               && (forall m :: j < m <= i - 1 ==> HasOwnerRole(states[m], org, user));
    } else {
      if e.Join? {
        OfferProvenance(states, events, i - 1, e.offer);
      }
      assert OwnerGranted(states, events, i - 1, org, user);
    }
  }

  // ---- The stored rows -------------------------------------------------------------------

  class MembershipRow {
    var role: Role
    var status: MemberStatus

    constructor (role: Role, status: MemberStatus)
      ensures Value() == Membership(role, status)
    {
      this.role := role;
      this.status := status;
    }

    function Value(): Membership
      reads this
    {
      Membership(role, status)
    }
  }

  /** The membership table and the methods that update its rows in place. */
  class OrganizationService {
    var table: map<(OrgId, UserId), MembershipRow>
    var slugs: set<string>
    ghost var orgs: set<OrgId>
    ghost var offers: set<Offer>

    ghost predicate Valid()
      reads this
    {
      forall a, b :: a in table && b in table && a != b ==> table[a] != table[b]
    }

    function Rows(): Members
      reads this, table.Values
    {
      map key | key in table :: table[key].Value()
    }

    ghost function View(): State
      reads this, table.Values
    {
      State(orgs, Rows(), offers)
    }

    constructor ()
      ensures Valid() && View() == EMPTY && fresh(table.Values)
    {
      table := map[];
      slugs := {};
      orgs := {};
      offers := {};
    }

    /** Rows that nobody wrote still read the same. */
    twostate lemma Kept()
      requires table == old(table)
      requires forall key :: key in table ==> unchanged(table[key])
      ensures Rows() == old(Rows())
    {}

    /** slug is the one asked for or made from the name; an empty or stored one is refused. */
    method Create(org: OrgId, user: UserId, slug: string) returns (outcome: Outcome)
      requires Valid() && org !in orgs
      modifies this
      ensures Valid() && fresh(table.Values - old(table.Values))
      ensures outcome == if slug == "" || slug in old(slugs) then SlugInUse else Done
      ensures outcome.Done? ==> View() == Apply(old(View()), Event.Create(org, user)).0 && slugs == old(slugs) + {slug}
      ensures !outcome.Done? ==> View() == old(View()) && slugs == old(slugs)
    {
      if slug == "" || slug in slugs { return SlugInUse; }
      var row := new MembershipRow(Owner, Active);
      table := table[(org, user) := row];
      orgs := orgs + {org};
      slugs := slugs + {slug};
      assert Rows() == old(Rows())[(org, user) := Membership(Owner, Active)];
      return Done;
    }

    method ChangeRole(org: OrgId, target: UserId, actor: UserId, role: Role) returns (outcome: Outcome)
      requires Valid()
      modifies table.Values
      ensures Valid() && (View(), outcome) == ApplyChangeRole(old(View()), org, target, actor, role)
    {
      var members := Rows();
      var refusal := CapabilityRefusal(members, org, actor);
      if refusal.Some? { return refusal.value; }
      if (org, target) !in table { return NotFound; }
      var row := table[(org, target)];
      if row.status.Removed? { return NotFound; }
      refusal := ManageRefusal(table[(org, actor)].role, row.role, Some(role));
      if refusal.Some? { return refusal.value; }
      if row.role.Owner? && !role.Owner? {
        var owners := ActiveOwners(members, org);
        if |owners| <= 1 { return LastOwner; }
      }
      row.role := role;
      assert Rows() == members[(org, target) := row.Value()];
      return Done;
    }

    method ChangeStatus(org: OrgId, target: UserId, actor: UserId, status: MemberStatus) returns (outcome: Outcome)
      requires Valid()
      modifies table.Values
      ensures Valid() && (View(), outcome) == ApplyChangeStatus(old(View()), org, target, actor, status)
    {
      var members := Rows();
      var refusal := CapabilityRefusal(members, org, actor);
      if refusal.Some? { return refusal.value; }
      if (org, target) !in table { return NotFound; }
      var row := table[(org, target)];
      if row.status.Removed? { return NotFound; }
      refusal := ManageRefusal(table[(org, actor)].role, row.role, None);
      if refusal.Some? { return refusal.value; }
      if row.role.Owner? && status.Suspended? {
        var owners := ActiveOwners(members, org);
        if |owners| <= 1 { return LastOwner; }
      }
      row.status := status;
      assert Rows() == members[(org, target) := row.Value()];
      return Done;
    }

    method Remove(org: OrgId, target: UserId, actor: UserId) returns (outcome: Outcome)
      requires Valid()
      modifies table.Values
      ensures Valid() && (View(), outcome) == ApplyRemove(old(View()), org, target, actor)
    {
      var members := Rows();
      var refusal := CapabilityRefusal(members, org, actor);
      if refusal.Some? { return refusal.value; }
      if (org, target) !in table { return Done; }
      var row := table[(org, target)];
      if row.status.Removed? { return Done; }
      refusal := ManageRefusal(table[(org, actor)].role, row.role, None);
      if refusal.Some? { return refusal.value; }
      if row.role.Owner? {
        var owners := ActiveOwners(members, org);
        if |owners| <= 1 { return LastOwner; }
      }
      row.status := Removed;
      assert Rows() == members[(org, target) := row.Value()];
      return Done;
    }

    /** The checks an invitation needs, remembering the offer. */
    method Invite(org: OrgId, actor: UserId, role: Role) returns (outcome: Outcome)
      requires Valid()
      modifies this`offers
      ensures Valid() && (View(), outcome) == ApplyInvite(old(View()), org, actor, role)
    {
      var members := Rows();
      var refusal := CapabilityRefusal(members, org, actor);
      if refusal.Some? { return refusal.value; }
      if !CanAssignRole(table[(org, actor)].role, role) { return UnsafeRoleAssignment; }
      offers := offers + {Offer(org, role, actor)};
      assert Rows() == members;
      return Done;
    }

    /** Reactivates a removed membership with the offered role or inserts a new one. */
    method Join(offer: Offer, user: UserId) returns (outcome: Outcome)
      requires Valid()
      modifies this`table, table.Values
      ensures Valid() && (View(), outcome) == ApplyJoin(old(View()), offer, user)
      ensures fresh(table.Values - old(table.Values))
    {
      ghost var members := Rows();
      var key := (offer.org, user);
      if key in table {
        var existing := table[key];
        if !existing.status.Removed? { return AlreadyMember; }
        existing.status := Active;
        existing.role := offer.role;
      } else {
        var member := new MembershipRow(offer.role, Active);
        table := table[key := member];
      }
      assert Rows() == members[key := Membership(offer.role, Active)];
      return Done;
    }
  }
}
