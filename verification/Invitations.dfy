/**
 * Invitation delivery (services/invitations.py): a transaction that commits a token and a delivery
 * generation, a send outside any transaction, and a second transaction that records the result only
 * if the generation still matches.
 */
module Invitations {
  import opened Prelude
  import Org = Organizations

  type InvitationId = nat
  type Token = nat
  /** Hashing is injective, so a hash determines its token. */
  datatype TokenHash = HashOf(token: Token)

  datatype Status = Pending | Accepted | Cancelled | Expired
  datatype Delivery = Sending | Delivered | Failed

  datatype Row = Row(
    offer: Org.Offer,
    email: string,
    tokenHash: TokenHash,
    status: Status,
    expiresAt: int,
    acceptedAt: Option<int>,
    delivery: Delivery,
    errorCode: Option<string>,
    attemptAt: int,
    deliveredAt: Option<int>,
    generation: nat)

  datatype ProviderResult = Success | Failure(code: string)

  /** What became of a send: still at the provider, written to its row, or dropped. */
  datatype Verdict = InFlight | AppliedSuccess | AppliedFailure | Discarded | RowGone

  /** The snapshot a send carries, with the token it mails. */
  datatype Send = Send(id: InvitationId, org: Org.OrgId, generation: nat, raw: Token, verdict: Verdict)

  /** sends is the history of every snapshot ever taken; latest names each invitation's newest one. */
  datatype State = State(
    gov: Org.State,
    users: map<string, Org.UserId>,
    rows: map<InvitationId, Row>,
    sends: seq<Send>,
    latest: map<InvitationId, nat>)

  const EMPTY := State(Org.EMPTY, map[], map[], [], map[])

  datatype Outcome =
    | Done
    | Refused(reason: Org.Outcome)
    | AlreadyMember
    | ActiveInvitationExists
    | InvitationNotFound
    | InvitationUnavailable
    | InvitationExpired
    | EmailMismatch
    | StaleResult

  datatype Event =
    | Governance(event: Org.Event)
    | Register(email: string, user: Org.UserId)
    | Create(id: InvitationId, org: Org.OrgId, actor: Org.UserId, email: string, role: Org.Role,
             raw: Token, now: int, ttl: int)
    | Resend(org: Org.OrgId, id: InvitationId, actor: Org.UserId, raw: Token, now: int, ttl: int)
    | Record(send: nat, result: ProviderResult, now: int)
    | Accept(raw: Token, user: Org.UserId, email: string, now: int)
    | Cancel(org: Org.OrgId, id: InvitationId, actor: Org.UserId)
    | Erase(id: InvitationId)

  predicate IsExpired(expiresAt: int, now: int) { expiresAt <= now }

  /** The row of an invitation as one organization sees it. */
  predicate Scoped(rows: map<InvitationId, Row>, org: Org.OrgId, id: InvitationId) {
    id in rows && rows[id].offer.org == org
  }

  predicate PendingFor(rows: map<InvitationId, Row>, org: Org.OrgId, email: string) {
    exists id :: id in rows && rows[id].offer.org == org && rows[id].email == email && rows[id].status.Pending?
  }

  function ApplyCreate(s: State, id: InvitationId, org: Org.OrgId, actor: Org.UserId, email: string,
                       role: Org.Role, raw: Token, now: int, ttl: int): (State, Outcome)
  {
    var (gov, verdict) := Org.ApplyInvite(s.gov, org, actor, role);
    if !verdict.Done? then (s, Refused(verdict))
    else if email in s.users && (org, s.users[email]) in s.gov.members then (s, AlreadyMember)
    else if PendingFor(s.rows, org, email) then (s, ActiveInvitationExists)
    else
      var row := Row(Org.Offer(org, role, actor), email, HashOf(raw), Pending, now + ttl, None,
                     Sending, None, now, None, 0);
      (s.(gov := gov, rows := s.rows[id := row],
          sends := s.sends + [Send(id, org, 0, raw, InFlight)],
          latest := s.latest[id := |s.sends|]), Done)
  }

  /** The checks shared by resend and cancel: the actor's capability, then the tenant-scoped row. */
  function AccessRefusal(s: State, org: Org.OrgId, id: InvitationId, actor: Org.UserId): Option<Outcome> {
    match Org.CapabilityRefusal(s.gov.members, org, actor)
    case Some(refusal) => Some(Refused(refusal))
    case None => if Scoped(s.rows, org, id) then None else Some(InvitationNotFound)
  }

  function ApplyResend(s: State, org: Org.OrgId, id: InvitationId, actor: Org.UserId, raw: Token, now: int, ttl: int)
    : (State, Outcome)
  {
    match AccessRefusal(s, org, id, actor)
    case Some(refusal) => (s, refusal)
    case None =>
      var row := s.rows[id];
      if !row.status.Pending? then (s, InvitationUnavailable)
      else if IsExpired(row.expiresAt, now) then
        (s.(rows := s.rows[id := row.(status := Expired)]), InvitationExpired)
      else
        var renewed := row.(tokenHash := HashOf(raw), expiresAt := now + ttl, delivery := Sending,
                            errorCode := None, attemptAt := now, generation := row.generation + 1);
        (s.(rows := s.rows[id := renewed],
            sends := s.sends + [Send(id, org, renewed.generation, raw, InFlight)],
            latest := s.latest[id := |s.sends|]), Done)
  }

  /** The second transaction of a send. */
  function ApplyRecord(s: State, i: nat, result: ProviderResult, now: int): (State, Outcome)
    requires i < |s.sends|
  {
    var send := s.sends[i];
    if !Scoped(s.rows, send.org, send.id) then
      (s.(sends := s.sends[i := send.(verdict := RowGone)]), InvitationNotFound)
    else
      var row := s.rows[send.id];
      if row.generation != send.generation then
        (s.(sends := s.sends[i := send.(verdict := Discarded)]), StaleResult)
      else
        var written := if result.Success?
                       then row.(delivery := Delivered, errorCode := None, deliveredAt := Some(now))
                       else row.(delivery := Failed, errorCode := Some(result.code));
        var verdict := if result.Success? then AppliedSuccess else AppliedFailure;
        (s.(rows := s.rows[send.id := written], sends := s.sends[i := send.(verdict := verdict)]), Done)
  }

  ghost function FindByHash(rows: map<InvitationId, Row>, hash: TokenHash): Option<InvitationId> {
    if exists id :: id in rows && rows[id].tokenHash == hash
    then var id :| id in rows && rows[id].tokenHash == hash; Some(id)
    else None
  }

  /** Accepting the invitation found under the presented token. */
  function ApplyAcceptRow(s: State, id: InvitationId, user: Org.UserId, email: string, now: int): (State, Outcome)
    requires id in s.rows
  {
    var row := s.rows[id];
    var key := (row.offer.org, user);
    if row.status.Accepted? && key in s.gov.members then (s, Done)
    else if !row.status.Pending? then (s, InvitationUnavailable)
    else if IsExpired(row.expiresAt, now) then
      (s.(rows := s.rows[id := row.(status := Expired, generation := row.generation + 1)]), InvitationExpired)
    else if row.email != email then (s, EmailMismatch)
    else ApplyEnrol(s, id, user, now)
  }

  /** Membership and invitation change together, or neither does. */
  function ApplyEnrol(s: State, id: InvitationId, user: Org.UserId, now: int): (State, Outcome)
    requires id in s.rows
  {
    var row := s.rows[id];
    var (gov, verdict) := Org.ApplyJoin(s.gov, row.offer, user);
    if !verdict.Done? then (s, AlreadyMember)
    else
      var taken := row.(status := Accepted, acceptedAt := Some(now), generation := row.generation + 1);
      (s.(gov := gov, rows := s.rows[id := taken]), Done)
  }

  ghost function ApplyAccept(s: State, raw: Token, user: Org.UserId, email: string, now: int): (State, Outcome) {
    match FindByHash(s.rows, HashOf(raw))
    case None => (s, InvitationNotFound)
    case Some(id) => ApplyAcceptRow(s, id, user, email, now)
  }

  /** Cancelling anything but a pending invitation is a no-op. */
  function ApplyCancel(s: State, org: Org.OrgId, id: InvitationId, actor: Org.UserId): (State, Outcome) {
    match AccessRefusal(s, org, id, actor)
    case Some(refusal) => (s, refusal)
    case None =>
      var row := s.rows[id];
      if row.status.Pending? then
        (s.(rows := s.rows[id := row.(status := Cancelled, generation := row.generation + 1)]), Done)
      else (s, Done)
  }

  /** Tokens and identifiers are fresh, each send reports once, and offers change only through this service. */
  predicate Legal(s: State, e: Event) {
    match e
    case Governance(event) => !event.Invite? && !event.Join? && Org.Legal(s.gov, event)
    case Create(id, _, _, _, _, raw, _, _) => id !in s.latest && FreshToken(s, raw)
    case Resend(_, _, _, raw, _, _) => FreshToken(s, raw)
    case Record(i, _, _) => i < |s.sends| && s.sends[i].verdict.InFlight?
    case _ => true
  }

  predicate FreshToken(s: State, raw: Token) {
    forall i :: 0 <= i < |s.sends| ==> s.sends[i].raw != raw
  }

  ghost function Apply(s: State, e: Event): (State, Outcome)
    requires Legal(s, e)
  {
    match e
    case Governance(event) => (s.(gov := Org.Apply(s.gov, event).0), Done)
    case Register(email, user) => (s.(users := s.users[email := user]), Done)
    case Create(id, org, actor, email, role, raw, now, ttl) => ApplyCreate(s, id, org, actor, email, role, raw, now, ttl)
    case Resend(org, id, actor, raw, now, ttl) => ApplyResend(s, org, id, actor, raw, now, ttl)
    case Record(i, result, now) => ApplyRecord(s, i, result, now)
    case Accept(raw, user, email, now) => ApplyAccept(s, raw, user, email, now)
    case Cancel(org, id, actor) => ApplyCancel(s, org, id, actor)
    case Erase(id) => (s.(rows := s.rows - {id}), Done)
  }

  // ---- The invariant ---------------------------------------------------------------------

  /** The sends of one invitation, in order, carry strictly rising generations and end at latest. */
  ghost predicate SendsOrdered(sends: seq<Send>, latest: map<InvitationId, nat>) {
    && (forall i, j :: 0 <= i < j < |sends| && sends[i].id == sends[j].id ==> sends[i].generation < sends[j].generation)
    && (forall i, j :: 0 <= i < j < |sends| ==> sends[i].raw != sends[j].raw)
    && (forall i :: 0 <= i < |sends| ==> sends[i].id in latest && i <= latest[sends[i].id])
    && (forall id :: id in latest ==> latest[id] < |sends| && sends[latest[id]].id == id)
  }

  /** What a row says about delivery while its newest send is the current one. */
  predicate ShowsVerdict(row: Row, verdict: Verdict) {
    match verdict
    case InFlight => row.delivery.Sending?
    case AppliedSuccess => row.delivery.Delivered? && row.deliveredAt.Some? && row.errorCode.None?
    case AppliedFailure => row.delivery.Failed? && row.errorCode.Some?
    case _ => false
  }

  /** A row holds the token of its newest send, and shows that send's verdict until it is closed. */
  predicate RowAgrees(row: Row, send: Send) {
    && row.tokenHash == HashOf(send.raw)
    && row.offer.org == send.org
    && send.generation <= row.generation
    && (row.status.Pending? ==> row.generation == send.generation)
    && (row.generation == send.generation ==>
          (row.status.Pending? || row.status.Expired?) && ShowsVerdict(row, send.verdict))
  }

  ghost predicate RowsAgree(rows: map<InvitationId, Row>, sends: seq<Send>, latest: map<InvitationId, nat>)
  {
    forall id :: id in rows ==> id in latest && latest[id] < |sends| && RowAgrees(rows[id], sends[latest[id]])
  }

  predicate SameAddress(a: Row, b: Row) {
    a.status.Pending? && b.status.Pending? && a.offer.org == b.offer.org && a.email == b.email
  }

  ghost predicate OnePendingPerAddress(rows: map<InvitationId, Row>) {
    forall a, b :: a in rows && b in rows && a != b ==> !SameAddress(rows[a], rows[b])
  }

  ghost predicate OffersKnown(rows: map<InvitationId, Row>, offers: set<Org.Offer>) {
    forall id :: id in rows ==> rows[id].offer in offers
  }

  ghost predicate Inv(s: State) {
    && SendsOrdered(s.sends, s.latest)
    && RowsAgree(s.rows, s.sends, s.latest)
    && OnePendingPerAddress(s.rows)
    && OffersKnown(s.rows, s.gov.offers)
  }

  /** A stored token hash identifies its invitation. */
  lemma HashIdentifies(s: State, a: InvitationId, b: InvitationId)
    requires Inv(s) && a in s.rows && b in s.rows && s.rows[a].tokenHash == s.rows[b].tokenHash
    ensures a == b
  {
    var i, j := s.latest[a], s.latest[b];
    assert s.sends[i].raw == s.sends[j].raw;
    assert i == j;
  }

  lemma FoundByHash(s: State, id: InvitationId)
    requires Inv(s) && id in s.rows
    ensures FindByHash(s.rows, s.rows[id].tokenHash) == Some(id)
  {
    var found := FindByHash(s.rows, s.rows[id].tokenHash).value;
    HashIdentifies(s, found, id);
  }

  /** Rewriting one stored row in place. */
  lemma InvTouch(s: State, gov: Org.State, id: InvitationId, row: Row)
    requires Inv(s) && id in s.rows && s.gov.offers <= gov.offers
    requires RowAgrees(row, s.sends[s.latest[id]])
    requires row.offer == s.rows[id].offer && row.email == s.rows[id].email
    requires row.status.Pending? ==> s.rows[id].status.Pending?
    ensures Inv(s.(gov := gov, rows := s.rows[id := row]))
  {}

  /** Storing a row together with a new send that mails its token. */
  lemma InvAppend(s: State, gov: Org.State, row: Row, send: Send)
    requires Inv(s) && s.gov.offers <= gov.offers && row.offer in gov.offers
    requires FreshToken(s, send.raw) && RowAgrees(row, send)
    requires send.id in s.latest ==> s.sends[s.latest[send.id]].generation < send.generation
    requires forall a :: a in s.rows && a != send.id ==> !SameAddress(s.rows[a], row)
    ensures Inv(s.(gov := gov, rows := s.rows[send.id := row], sends := s.sends + [send],
                   latest := s.latest[send.id := |s.sends|]))
  {
    AppendKeepsOrder(s, send);
    AppendAgrees(s.rows, s.sends, s.latest, row, send);
    StoreKeepsAddresses(s.rows, send.id, row);
  }

  lemma StoreKeepsAddresses(rows: map<InvitationId, Row>, id: InvitationId, row: Row)
    requires OnePendingPerAddress(rows)
    requires forall a :: a in rows && a != id ==> !SameAddress(rows[a], row)
    ensures OnePendingPerAddress(rows[id := row])
  {
    var after := rows[id := row];
    forall a, b | a in after && b in after && a != b ensures !SameAddress(after[a], after[b]) {
      if a == id {
        assert !SameAddress(rows[b], row);
      }
    }
  }

  lemma AppendAgrees(rows: map<InvitationId, Row>, sends: seq<Send>, latest: map<InvitationId, nat>, row: Row, send: Send)
    requires RowsAgree(rows, sends, latest) && RowAgrees(row, send)
    ensures RowsAgree(rows[send.id := row], sends + [send], latest[send.id := |sends|])
  {}

  lemma AppendKeepsOrder(s: State, send: Send)
    requires SendsOrdered(s.sends, s.latest) && FreshToken(s, send.raw)
    requires send.id in s.latest ==> s.sends[s.latest[send.id]].generation < send.generation
    ensures SendsOrdered(s.sends + [send], s.latest[send.id := |s.sends|])
  {
    var more := s.sends + [send];
    forall i, j | 0 <= i < j < |more| && more[i].id == more[j].id
      ensures more[i].generation < more[j].generation
    {
      NewestIsLargest(s, i);
    }
  }

  lemma NewestIsLargest(s: State, i: nat)
    requires SendsOrdered(s.sends, s.latest) && i < |s.sends|
    ensures var newest := s.latest[s.sends[i].id];
            i <= newest < |s.sends| && s.sends[newest].id == s.sends[i].id
            && s.sends[i].generation <= s.sends[newest].generation
            && (s.sends[i].generation == s.sends[newest].generation ==> i == newest)
  {
    var newest := s.latest[s.sends[i].id];
    assert s.sends[newest].id == s.sends[i].id;
    if i < newest {
      assert s.sends[i].generation < s.sends[newest].generation;
    }
  }

  /** Giving a send its verdict without writing a row. */
  lemma InvSettle(s: State, i: nat, verdict: Verdict)
    requires Inv(s) && i < |s.sends|
    requires var id := s.sends[i].id; id in s.rows && s.latest[id] == i ==>
               s.rows[id].generation != s.sends[i].generation
    ensures Inv(s.(sends := s.sends[i := s.sends[i].(verdict := verdict)]))
  {
    SettleKeepsOrder(s.sends, s.latest, i, verdict);
  }

  /** Writing the verdict of the newest send into its row. */
  lemma InvWritten(s: State, i: nat, row: Row, verdict: Verdict)
    requires Inv(s) && i < |s.sends| && s.sends[i].id in s.rows && s.latest[s.sends[i].id] == i
    requires var stored := s.rows[s.sends[i].id];
             row.offer == stored.offer && row.email == stored.email && row.status == stored.status
    requires RowAgrees(row, s.sends[i].(verdict := verdict))
    ensures Inv(s.(rows := s.rows[s.sends[i].id := row], sends := s.sends[i := s.sends[i].(verdict := verdict)]))
  {
    SettleKeepsOrder(s.sends, s.latest, i, verdict);
    WrittenAgrees(s.rows, s.sends, s.latest, i, row, verdict);
    var id := s.sends[i].id;
    forall a | a in s.rows && a != id ensures !SameAddress(s.rows[a], row) {
      assert !SameAddress(s.rows[a], s.rows[id]);
    }
    StoreKeepsAddresses(s.rows, id, row);
  }

  lemma WrittenAgrees(rows: map<InvitationId, Row>, sends: seq<Send>, latest: map<InvitationId, nat>,
                      i: nat, row: Row, verdict: Verdict)
    requires RowsAgree(rows, sends, latest) && i < |sends| && sends[i].id in latest && latest[sends[i].id] == i
    requires forall id :: id in latest ==> latest[id] < |sends| && sends[latest[id]].id == id
    requires RowAgrees(row, sends[i].(verdict := verdict))
    ensures RowsAgree(rows[sends[i].id := row], sends[i := sends[i].(verdict := verdict)], latest)
  {
    forall id | id in rows && id != sends[i].id ensures latest[id] != i {}
  }

  lemma SettleKeepsOrder(sends: seq<Send>, latest: map<InvitationId, nat>, i: nat, verdict: Verdict)
    requires SendsOrdered(sends, latest) && i < |sends|
    ensures SendsOrdered(sends[i := sends[i].(verdict := verdict)], latest)
  {
    var after := sends[i := sends[i].(verdict := verdict)];
    assert forall j :: 0 <= j < |sends| ==>
             after[j].id == sends[j].id && after[j].raw == sends[j].raw && after[j].generation == sends[j].generation;
  }

  lemma InvCreate(s: State, e: Event)
    requires Inv(s) && e.Create? && Legal(s, e)
    ensures Inv(Apply(s, e).0)
  {
    var (after, outcome) := Apply(s, e);
    if outcome.Done? {
      InvAppend(s, after.gov, after.rows[e.id], Send(e.id, e.org, 0, e.raw, InFlight));
    }
  }

  lemma InvResend(s: State, e: Event)
    requires Inv(s) && e.Resend? && Legal(s, e)
    ensures Inv(Apply(s, e).0)
  {
    var (after, outcome) := Apply(s, e);
    if outcome.Done? {
      InvAppend(s, s.gov, after.rows[e.id], Send(e.id, e.org, after.rows[e.id].generation, e.raw, InFlight));
    } else if outcome.InvitationExpired? {
      InvTouch(s, s.gov, e.id, after.rows[e.id]);
    }
  }

  lemma InvRecord(s: State, e: Event)
    requires Inv(s) && e.Record? && Legal(s, e)
    ensures Inv(Apply(s, e).0)
  {
    var (after, outcome) := Apply(s, e);
    var i := e.send;
    var id := s.sends[i].id;
    NewestIsLargest(s, i);
    if outcome.Done? {
      InvWritten(s, i, after.rows[id], after.sends[i].verdict);
    } else {
      InvSettle(s, i, after.sends[i].verdict);
    }
  }

  lemma InvAccept(s: State, e: Event)
    requires Inv(s) && e.Accept? && Legal(s, e)
    ensures Inv(Apply(s, e).0)
  {
    var (after, outcome) := Apply(s, e);
    if after != s {
      var id := FindByHash(s.rows, HashOf(e.raw)).value;
      InvTouch(s, after.gov, id, after.rows[id]);
    }
  }

  lemma InvCancel(s: State, e: Event)
    requires Inv(s) && e.Cancel? && Legal(s, e)
    ensures Inv(Apply(s, e).0)
  {
    var after := Apply(s, e).0;
    if after != s {
      InvTouch(s, s.gov, e.id, after.rows[e.id]);
    }
  }

  lemma InvOther(s: State, e: Event)
    requires Inv(s) && (e.Governance? || e.Register? || e.Erase?) && Legal(s, e)
    ensures Inv(Apply(s, e).0)
  {
    var after := Apply(s, e).0;
    assert s.gov.offers <= after.gov.offers;
  }

  /** Every legal step of every party preserves the invariant. */
  lemma InvStep(s: State, e: Event)
    requires Inv(s) && Legal(s, e)
    ensures Inv(Apply(s, e).0)
  {
    if e.Create? { InvCreate(s, e); }
    else if e.Resend? { InvResend(s, e); }
    else if e.Record? { InvRecord(s, e); }
    else if e.Accept? { InvAccept(s, e); }
    else if e.Cancel? { InvCancel(s, e); }
    else { InvOther(s, e); }
  }

  // ---- Runs ------------------------------------------------------------------------------

  ghost predicate LegalRun(s: State, events: seq<Event>)
    decreases |events|, 0
  {
    events == [] ||
    (LegalRun(s, events[..|events| - 1]) && Legal(Run(s, events[..|events| - 1]), events[|events| - 1]))
  }

  ghost function Run(s: State, events: seq<Event>): State
    requires LegalRun(s, events)
    decreases |events|, 1
  {
    if events == [] then s
    else Apply(Run(s, events[..|events| - 1]), events[|events| - 1]).0
  }

  lemma {:induction false} InvRun(s: State, events: seq<Event>)
    requires Inv(s) && LegalRun(s, events)
    ensures Inv(Run(s, events))
  {
    if events != [] {
      InvRun(s, events[..|events| - 1]);
      InvStep(Run(s, events[..|events| - 1]), events[|events| - 1]);
    }
  }

  /** In every reachable state each generation of an invitation was snapshotted by at most one send. */
  lemma GenerationSentOnce(events: seq<Event>, i: nat, j: nat)
    requires LegalRun(EMPTY, events)
    requires i < |Run(EMPTY, events).sends| && j < |Run(EMPTY, events).sends|
    requires var sends := Run(EMPTY, events).sends;
             sends[i].id == sends[j].id && sends[i].generation == sends[j].generation
    ensures i == j
  {
    InvRun(EMPTY, events);
  }

  /**
   * Recording a result changes a row only if that row still stores the hash of the token this very send
   * mailed, the send is the invitation's newest, and the row is waiting for it.
   */
  lemma RecordNeedsCurrentToken(events: seq<Event>, i: nat, result: ProviderResult, now: int, id: InvitationId)
    requires LegalRun(EMPTY, events)
    requires var s := Run(EMPTY, events);
             i < |s.sends| && s.sends[i].verdict.InFlight? && id in s.rows
             && ApplyRecord(s, i, result, now).0.rows[id] != s.rows[id]
    ensures var s := Run(EMPTY, events);
            && s.sends[i].id == id && id in s.latest && s.latest[id] == i
            && s.rows[id].tokenHash == HashOf(s.sends[i].raw)
            && s.rows[id].delivery.Sending?
            && (s.rows[id].status.Pending? || s.rows[id].status.Expired?)
  {
    InvRun(EMPTY, events);
    var s := Run(EMPTY, events);
    NewestIsLargest(s, i);
  }

  /**
   * A pending invitation marked delivered holds the token of its newest send, whose success was applied,
   * and no other send of that invitation that was applied as a success is newer.
   */
  lemma DeliveredHoldsLastToken(events: seq<Event>, id: InvitationId)
    requires LegalRun(EMPTY, events)
    requires var s := Run(EMPTY, events);
             id in s.rows && s.rows[id].status.Pending? && s.rows[id].delivery.Delivered?
    ensures var s := Run(EMPTY, events);
            exists i :: 0 <= i < |s.sends| && s.sends[i].id == id && s.sends[i].verdict.AppliedSuccess?
              && s.rows[id].tokenHash == HashOf(s.sends[i].raw)
              && (forall j :: i < j < |s.sends| ==> s.sends[j].id != id)
  {
    InvRun(EMPTY, events);
    var s := Run(EMPTY, events);
    assert s.sends[s.latest[id]].id == id;
  }

  /** Only the token of an invitation's newest send can change that invitation by being accepted. */
  lemma AcceptNeedsNewestToken(events: seq<Event>, raw: Token, user: Org.UserId, email: string, now: int, id: InvitationId)
    requires LegalRun(EMPTY, events) && id in Run(EMPTY, events).rows
    ensures var s := Run(EMPTY, events);
            var after := ApplyAccept(s, raw, user, email, now).0;
            && id in after.rows && id in s.latest && s.latest[id] < |s.sends|
            && (after.rows[id] != s.rows[id] ==> s.rows[id].status.Pending? && raw == s.sends[s.latest[id]].raw)
  {
    InvRun(EMPTY, events);
    var s := Run(EMPTY, events);
    assert RowAgrees(s.rows[id], s.sends[s.latest[id]]);
    AcceptTouches(s, raw, user, email, now, id);
  }

  lemma AcceptTouches(s: State, raw: Token, user: Org.UserId, email: string, now: int, id: InvitationId)
    requires id in s.rows
    ensures var after := ApplyAccept(s, raw, user, email, now).0;
            id in after.rows
            && (after.rows[id] != s.rows[id] ==> s.rows[id].status.Pending? && s.rows[id].tokenHash == HashOf(raw))
  {}

  // ---- Closed invitations ----------------------------------------------------------------

  /** An invitation that left PENDING and that no send still in flight can touch. */
  ghost predicate Closed(s: State, id: InvitationId) {
    && id in s.rows && !s.rows[id].status.Pending?
    && (forall i :: 0 <= i < |s.sends| && s.sends[i].id == id && s.sends[i].verdict.InFlight? ==>
          s.sends[i].generation != s.rows[id].generation)
  }

  /** A closed invitation ignores results, and new sends never bring its generation back. */
  lemma ClosedSend(s: State, e: Event, id: InvitationId)
    requires Inv(s) && Legal(s, e) && Closed(s, id) && (e.Record? || e.Create? || e.Resend?)
    ensures id in Apply(s, e).0.rows && Apply(s, e).0.rows[id] == s.rows[id] && Closed(Apply(s, e).0, id)
  {
    match e
    case Record(i, result, now) => ClosedRecord(s, i, result, now, id);
    case Create(own, org, actor, email, role, raw, now, ttl) =>
      ClosedCreate(s, own, org, actor, email, role, raw, now, ttl, id);
    case Resend(org, own, actor, raw, now, ttl) => ClosedResend(s, org, own, actor, raw, now, ttl, id);
    case _ =>
  }

  lemma ClosedRecord(s: State, i: nat, result: ProviderResult, now: int, id: InvitationId)
    requires i < |s.sends| && s.sends[i].verdict.InFlight? && Closed(s, id)
    ensures var after := ApplyRecord(s, i, result, now).0; id in after.rows && after.rows[id] == s.rows[id] && Closed(after, id)
  {
    var after := ApplyRecord(s, i, result, now).0;
    assert s.sends[i].id == id ==> s.sends[i].generation != s.rows[id].generation;
    assert after.rows[id] == s.rows[id];
    assert forall k :: 0 <= k < |s.sends| && after.sends[k].verdict.InFlight? ==> after.sends[k] == s.sends[k];
  }

  lemma ClosedCreate(s: State, own: InvitationId, org: Org.OrgId, actor: Org.UserId, email: string, role: Org.Role,
                     raw: Token, now: int, ttl: int, id: InvitationId)
    requires Inv(s) && own !in s.latest && Closed(s, id)
    ensures var after := ApplyCreate(s, own, org, actor, email, role, raw, now, ttl).0;
            id in after.rows && after.rows[id] == s.rows[id] && Closed(after, id)
  {
    var after := ApplyCreate(s, own, org, actor, email, role, raw, now, ttl).0;
    assert id in s.latest;
    assert forall i :: 0 <= i < |after.sends| && after.sends[i].id == id ==> i < |s.sends| && after.sends[i] == s.sends[i];
  }

  lemma ClosedResend(s: State, org: Org.OrgId, own: InvitationId, actor: Org.UserId, raw: Token, now: int, ttl: int,
                     id: InvitationId)
    requires Closed(s, id)
    ensures var after := ApplyResend(s, org, own, actor, raw, now, ttl).0;
            id in after.rows && after.rows[id] == s.rows[id] && Closed(after, id)
  {
    var after := ApplyResend(s, org, own, actor, raw, now, ttl).0;
    assert forall i :: 0 <= i < |after.sends| && after.sends[i].id == id ==> i < |s.sends| && after.sends[i] == s.sends[i];
  }

  /** Events other than creating, resending and recording take no snapshot and settle none. */
  lemma QuietSends(s: State, e: Event)
    requires Legal(s, e) && !e.Record? && !e.Create? && !e.Resend?
    ensures Apply(s, e).0.sends == s.sends && Apply(s, e).0.latest == s.latest
  {}

  lemma QuietRow(s: State, e: Event, id: InvitationId)
    requires Legal(s, e) && !e.Record? && !e.Create? && !e.Resend?
    requires id in s.rows && !s.rows[id].status.Pending? && id in Apply(s, e).0.rows
    ensures Apply(s, e).0.rows[id] == s.rows[id]
  {}

  lemma ClosedStep(s: State, e: Event, id: InvitationId)
    requires Inv(s) && Legal(s, e) && Closed(s, id)
    ensures id in s.latest && id in Apply(s, e).0.latest
    ensures id in Apply(s, e).0.rows ==> Apply(s, e).0.rows[id] == s.rows[id] && Closed(Apply(s, e).0, id)
  {
    if e.Record? || e.Create? || e.Resend? {
      ClosedSend(s, e, id);
    } else {
      QuietSends(s, e);
      if id in Apply(s, e).0.rows {
        QuietRow(s, e, id);
      }
    }
  }

  lemma {:induction false} ClosedForever(s: State, events: seq<Event>, id: InvitationId)
    requires Inv(s) && LegalRun(s, events) && Closed(s, id)
    ensures Inv(Run(s, events)) && id in Run(s, events).latest
    ensures id in Run(s, events).rows ==> Run(s, events).rows[id] == s.rows[id] && Closed(Run(s, events), id)
  {
    if events != [] {
      var prefix, e := events[..|events| - 1], events[|events| - 1];
      ClosedForever(s, prefix, id);
      InvStep(Run(s, prefix), e);
      if id in Run(s, prefix).rows {
        ClosedStep(Run(s, prefix), e, id);
      } else {
        NotRecreated(Run(s, prefix), e, id);
      }
    }
  }

  /** Identifiers are never reused. */
  lemma NotRecreated(s: State, e: Event, id: InvitationId)
    requires Legal(s, e) && id in s.latest && id !in s.rows
    ensures id in Apply(s, e).0.latest && id !in Apply(s, e).0.rows
  {}

  /**
   * Exactly when a non-pending invitation is beyond reach: every legal future leaves its whole row as it
   * is if and only if no send in flight carries its current generation.
   */
  lemma UntouchableIffClosed(s: State, id: InvitationId)
    requires Inv(s) && id in s.rows && !s.rows[id].status.Pending?
    ensures (forall events :: LegalRun(s, events) && id in Run(s, events).rows ==> Run(s, events).rows[id] == s.rows[id])
            <==> Closed(s, id)
  {
    if Closed(s, id) {
      forall events | LegalRun(s, events) && id in Run(s, events).rows
        ensures Run(s, events).rows[id] == s.rows[id]
      {
        ClosedForever(s, events, id);
      }
    } else {
      var i :| && 0 <= i < |s.sends| && s.sends[i].id == id && s.sends[i].verdict.InFlight?
               && s.sends[i].generation == s.rows[id].generation;
      NewestIsLargest(s, i);
      var after := Extend(s, [], Record(i, Success, 0));
      assert after.rows[id].delivery.Delivered? && s.rows[id].delivery.Sending?;
    }
  }

  /**
   * A step that moves an invitation out of PENDING closes it, unless the step is a resend that found the
   * invitation expired while its newest send was still in flight: that branch does not raise the generation.
   */
  lemma ExitClosesIff(s: State, e: Event, id: InvitationId)
    requires Inv(s) && Legal(s, e) && id in s.rows && id in Apply(s, e).0.rows
    requires s.rows[id].status.Pending? && !Apply(s, e).0.rows[id].status.Pending?
    ensures Closed(Apply(s, e).0, id) <==> !(e.Resend? && s.sends[s.latest[id]].verdict.InFlight?)
  {
    var after := Apply(s, e).0;
    var newest := s.latest[id];
    ExitRaises(s, e, id);
    forall i | 0 <= i < |s.sends| && s.sends[i].id == id
      ensures s.sends[i].generation <= s.rows[id].generation
      ensures s.sends[i].generation == s.rows[id].generation ==> i == newest
    {
      NewestIsLargest(s, i);
    }
    assert s.sends[newest].id == id;
  }

  lemma ExitRaises(s: State, e: Event, id: InvitationId)
    requires Inv(s) && Legal(s, e) && id in s.rows && id in Apply(s, e).0.rows
    requires s.rows[id].status.Pending? && !Apply(s, e).0.rows[id].status.Pending?
    ensures Apply(s, e).0.sends == s.sends
    ensures s.rows[id].generation == s.sends[s.latest[id]].generation
    ensures Apply(s, e).0.rows[id].generation == s.rows[id].generation + if e.Resend? then 0 else 1
  {
    assert RowAgrees(s.rows[id], s.sends[s.latest[id]]);
    ExitGeneration(s, e, id);
  }

  lemma ExitGeneration(s: State, e: Event, id: InvitationId)
    requires Legal(s, e) && id in s.rows && id in Apply(s, e).0.rows
    requires s.rows[id].status.Pending? && !Apply(s, e).0.rows[id].status.Pending?
    ensures Apply(s, e).0.sends == s.sends
    ensures Apply(s, e).0.rows[id].generation == s.rows[id].generation + if e.Resend? then 0 else 1
  {}

  /** The exception: a resend finds the invitation expired while its newest send is in flight, and a success of that
      send is still written. */
  lemma ExpiredIsOverwritten(s: State, id: InvitationId, i: nat, org: Org.OrgId, actor: Org.UserId, raw: Token, now: int,
                             ttl: int, at: int)
    requires id in s.rows && s.rows[id].status.Pending? && IsExpired(s.rows[id].expiresAt, now)
    requires AccessRefusal(s, org, id, actor).None? && FreshToken(s, raw)
    requires i < |s.sends| && s.sends[i].id == id && s.sends[i].org == org && s.sends[i].verdict.InFlight?
    requires s.sends[i].generation == s.rows[id].generation
    ensures var resend, record := Resend(org, id, actor, raw, now, ttl), Record(i, Success, at);
            && Legal(s, resend) && Legal(Apply(s, resend).0, record)
            && var end := Apply(Apply(s, resend).0, record).0;
               id in end.rows && end.rows[id].status.Expired? && end.rows[id].delivery.Delivered?
  {}

  /** A run with this exception: an expired invitation is marked delivered afterwards. */
  lemma ResendExpiryIsOverwritten()
    ensures exists events :: LegalRun(EMPTY, events)
              && 5 in Run(EMPTY, events).rows
              && Run(EMPTY, events).rows[5].status.Expired? && Run(EMPTY, events).rows[5].delivery.Delivered?
  {
    var e0, e1 := Governance(Org.Create(1, 7)), Create(5, 1, 7, "a", Org.Viewer, 9, 0, 10);
    var e2, e3 := Resend(1, 5, 7, 11, 20, 10), Record(0, Success, 21);
    FirstInvitation(e0, e1);
    var s2 := Run(EMPTY, [e0, e1]);
    ExpiredIsOverwritten(s2, 5, 0, 1, 7, 11, 20, 10, 21);
    var s3 := Extend(EMPTY, [e0, e1], e2);
    var s4 := Extend(EMPTY, [e0, e1] + [e2], e3);
  }

  lemma FirstInvitation(e0: Event, e1: Event)
    requires e0 == Governance(Org.Create(1, 7)) && e1 == Create(5, 1, 7, "a", Org.Viewer, 9, 0, 10)
    ensures LegalRun(EMPTY, [e0, e1])
    ensures var s := Run(EMPTY, [e0, e1]);
            && 5 in s.rows && s.rows[5].status.Pending? && s.rows[5].expiresAt == 10 && s.rows[5].generation == 0
            && s.sends == [Send(5, 1, 0, 9, InFlight)] && AccessRefusal(s, 1, 5, 7).None?
  {
    var s1 := Extend(EMPTY, [], e0);
    assert [] + [e0] == [e0] && [e0] + [e1] == [e0, e1];
    var s2 := Extend(EMPTY, [e0], e1);
  }

  lemma Extend(s: State, events: seq<Event>, e: Event) returns (after: State)
    requires LegalRun(s, events) && Legal(Run(s, events), e)
    ensures LegalRun(s, events + [e]) && after == Run(s, events + [e]) == Apply(Run(s, events), e).0
  {
    assert (events + [e])[..|events|] == events;
    after := Run(s, events + [e]);
  }

  // ---- What each request answers ---------------------------------------------------------

  /** What the provider answered is what is recorded, on the row of the send and nowhere else. */
  lemma RecordAnswer(s: State, i: nat, result: ProviderResult, now: int)
    requires i < |s.sends|
    ensures var (after, outcome) := ApplyRecord(s, i, result, now);
            var send := s.sends[i];
            var found := send.id in s.rows && s.rows[send.id].offer.org == send.org;
            && (outcome == InvitationNotFound <==> !found)
            && (outcome == StaleResult <==> found && s.rows[send.id].generation != send.generation)
            && (outcome == Done <==> found && s.rows[send.id].generation == send.generation)
            && after.gov == s.gov && after.users == s.users && after.latest == s.latest
            && (outcome != Done ==> after.rows == s.rows)
            && (outcome == Done && result.Success? ==>
                  after.rows == s.rows[send.id := s.rows[send.id].(delivery := Delivered, errorCode := None, deliveredAt := Some(now))])
            && (outcome == Done && result.Failure? ==>
                  after.rows == s.rows[send.id := s.rows[send.id].(delivery := Failed, errorCode := Some(result.code))])
  {}

  /** A new invitation is stored and sent exactly when its actor may offer the role and neither a member nor a pending
      invitation has the address. */
  lemma CreateAnswer(s: State, id: InvitationId, org: Org.OrgId, actor: Org.UserId, email: string, role: Org.Role,
                     raw: Token, now: int, ttl: int)
    ensures var (after, outcome) := ApplyCreate(s, id, org, actor, email, role, raw, now, ttl);
            var may := Org.Manages(s.gov.members, org, actor) && (role == Org.Owner ==> s.gov.members[(org, actor)].role == Org.Owner);
            var member := email in s.users && (org, s.users[email]) in s.gov.members;
            var pending := exists a :: a in s.rows && s.rows[a].offer.org == org && s.rows[a].email == email && s.rows[a].status == Pending;
            && (outcome == Done <==> may && !member && !pending)
            && (outcome == AlreadyMember <==> may && member)
            && (outcome == ActiveInvitationExists <==> may && !member && pending)
            && after.gov.members == s.gov.members && after.users == s.users
            && (outcome != Done ==> after == s)
            && (outcome == Done ==>
                  && after.rows == s.rows[id := Row(Org.Offer(org, role, actor), email, HashOf(raw), Pending, now + ttl, None,
                                                    Sending, None, now, None, 0)]
                  && after.sends == s.sends + [Send(id, org, 0, raw, InFlight)])
  {}

  /** Once an address is registered to a member, no invitation to it is created. */
  lemma MembersAreNotInvited(s: State, email: string, user: Org.UserId, e: Event)
    requires e.Create? && e.email == email && (e.org, user) in s.gov.members
    ensures Legal(s, Register(email, user))
    ensures var known := Apply(s, Register(email, user)).0;
            Legal(known, e) ==>
              && Apply(known, e).0 == known
              && (Org.Manages(s.gov.members, e.org, e.actor) && e.role != Org.Owner ==> Apply(known, e).1 == AlreadyMember)
  {
    var known := Apply(s, Register(email, user)).0;
    if Legal(known, e) {
      CreateAnswer(known, e.id, e.org, e.actor, email, e.role, e.raw, e.now, e.ttl);
    }
  }

  /** A resend takes effect exactly on a pending, unexpired invitation of the organization. */
  lemma ResendAnswer(s: State, org: Org.OrgId, id: InvitationId, actor: Org.UserId, raw: Token, now: int, ttl: int)
    ensures var (after, outcome) := ApplyResend(s, org, id, actor, raw, now, ttl);
            var may := Org.Manages(s.gov.members, org, actor);
            var found := may && id in s.rows && s.rows[id].offer.org == org;
            && (outcome == InvitationNotFound <==> may && !found)
            && (outcome == InvitationUnavailable <==> found && s.rows[id].status != Pending)
            && (outcome == InvitationExpired <==> found && s.rows[id].status == Pending && s.rows[id].expiresAt <= now)
            && (outcome == Done <==> found && s.rows[id].status == Pending && now < s.rows[id].expiresAt)
            && after.gov == s.gov && after.users == s.users
            && (outcome != Done ==> after.sends == s.sends)
            && (outcome != Done && outcome != InvitationExpired ==> after == s)
            && (outcome == InvitationExpired ==> after.rows == s.rows[id := s.rows[id].(status := Expired)])
            && (outcome == Done ==>
                  && after.rows == s.rows[id := s.rows[id].(tokenHash := HashOf(raw), expiresAt := now + ttl, delivery := Sending,
                                                            errorCode := None, attemptAt := now,
                                                            generation := s.rows[id].generation + 1)]
                  && after.sends == s.sends + [Send(id, org, s.rows[id].generation + 1, raw, InFlight)])
  {}

  /** Cancelling changes exactly a pending invitation of the organization. */
  lemma CancelAnswer(s: State, org: Org.OrgId, id: InvitationId, actor: Org.UserId)
    ensures var (after, outcome) := ApplyCancel(s, org, id, actor);
            var may := Org.Manages(s.gov.members, org, actor);
            var found := may && id in s.rows && s.rows[id].offer.org == org;
            && (outcome == Done <==> found) && (outcome == InvitationNotFound <==> may && !found)
            && (if found && s.rows[id].status == Pending
                then after == s.(rows := s.rows[id := s.rows[id].(status := Cancelled, generation := s.rows[id].generation + 1)])
                else after == s)
  {}

  /** Presenting the token of a stored invitation: what happens is decided by its status, its expiry, the address and the
      membership, in that order. */
  lemma AcceptAnswer(s: State, id: InvitationId, user: Org.UserId, email: string, now: int)
    requires Inv(s) && id in s.rows
    ensures var row := s.rows[id];
            var (after, outcome) := ApplyAccept(s, row.tokenHash.token, user, email, now);
            var key := (row.offer.org, user);
            var member := key in s.gov.members;
            var live := row.status == Pending && now < row.expiresAt;
            var joins := live && row.email == email && (member ==> s.gov.members[key].status == Org.Removed);
            && (outcome == Done <==> joins || (row.status == Accepted && member))
            && (outcome == InvitationUnavailable <==> row.status != Pending && !(row.status == Accepted && member))
            && (outcome == InvitationExpired <==> row.status == Pending && row.expiresAt <= now)
            && (outcome == EmailMismatch <==> live && row.email != email)
            && (outcome == AlreadyMember <==> live && row.email == email && !joins)
            && after.sends == s.sends && after.users == s.users && after.latest == s.latest
            && after.gov.members == (if joins then s.gov.members[key := Org.Membership(row.offer.role, Org.Active)] else s.gov.members)
            && after.rows == if joins
                             then s.rows[id := row.(status := Accepted, acceptedAt := Some(now), generation := row.generation + 1)]
                             else if outcome == InvitationExpired
                             then s.rows[id := row.(status := Expired, generation := row.generation + 1)]
                             else s.rows
  {
    FoundByHash(s, id);
  }

  /** A token no invitation stores is refused and changes nothing. */
  lemma UnknownTokenAnswer(s: State, raw: Token, user: Org.UserId, email: string, now: int)
    ensures ApplyAccept(s, raw, user, email, now).1 == InvitationNotFound
            <==> forall id :: id in s.rows ==> s.rows[id].tokenHash != HashOf(raw)
    ensures ApplyAccept(s, raw, user, email, now).1 == InvitationNotFound ==> ApplyAccept(s, raw, user, email, now).0 == s
  {}

  // ---- Where a delivery mark comes from ----------------------------------------------------

  predicate SameMark(a: Row, b: Row) {
    a.delivery == b.delivery && a.errorCode == b.errorCode && a.deliveredAt == b.deliveredAt
  }

  /** Without a result reported, a row that is marked was marked so before, and its newest send is the same. */
  lemma MarkKept(s: State, e: Event, id: InvitationId)
    requires Legal(s, e) && !e.Record? && id in Apply(s, e).0.rows && !Apply(s, e).0.rows[id].delivery.Sending?
    ensures id in s.rows && SameMark(s.rows[id], Apply(s, e).0.rows[id])
    ensures id in s.latest ==> id in Apply(s, e).0.latest && Apply(s, e).0.latest[id] == s.latest[id]
  {
    match e
    case Create(_, org, actor, email, role, raw, now, ttl) =>
    case Resend(_, _, _, _, _, _) =>
    case Accept(_, _, _, _) =>
    case Cancel(_, _, _) =>
    case _ =>
  }

  /** A result marks the row of its own send as it says, if it is the newest, and no other row. */
  lemma MarkReported(s: State, i: nat, result: ProviderResult, now: int, id: InvitationId)
    requires Inv(s) && i < |s.sends| && id in s.rows
    ensures var after := ApplyRecord(s, i, result, now).0;
            && id in after.rows && after.latest == s.latest && id in s.latest
            && (SameMark(s.rows[id], after.rows[id]) || (i == s.latest[id] && Reports(after.rows[id], Record(i, result, now))))
  {
    RecordAnswer(s, i, result, now);
    if s.sends[i].id == id && s.rows[id].generation == s.sends[i].generation {
      NewestIsLargest(s, i);
    }
  }

  /** A row marked after a step was marked so before, or the step reports that very result of its newest send. */
  lemma DeliveryStep(s: State, e: Event, id: InvitationId)
    requires Inv(s) && Legal(s, e) && id in Apply(s, e).0.rows && !Apply(s, e).0.rows[id].delivery.Sending?
    ensures id in s.rows && id in s.latest && id in Apply(s, e).0.latest && Apply(s, e).0.latest[id] == s.latest[id]
    ensures var row := Apply(s, e).0.rows[id];
            SameMark(s.rows[id], row) || (e.Record? && e.send == s.latest[id] && Reports(row, e))
  {
    if e.Record? {
      RecordAnswer(s, e.send, e.result, e.now);
      MarkReported(s, e.send, e.result, e.now, id);
    } else {
      MarkKept(s, e, id);
    }
  }

  /** The row shows what this event reports. */
  predicate Reports(row: Row, e: Event)
    requires e.Record?
  {
    match e.result
    case Success => row.delivery == Delivered && row.deliveredAt == Some(e.now) && row.errorCode == None
    case Failure(code) => row.delivery == Failed && row.errorCode == Some(code)
  }

  /** The k-th event reported the mark of this row, as a result of the i-th send. */
  predicate MarkedAt(events: seq<Event>, k: nat, row: Row, i: nat) {
    k < |events| && events[k].Record? && events[k].send == i && Reports(row, events[k])
  }

  /** In every run an invitation marked delivered or failed got that mark from a reported success or failure of its newest
      send, with that very time or code. */
  lemma {:induction false} DeliveryProvenance(events: seq<Event>, id: InvitationId)
    requires LegalRun(EMPTY, events)
    requires id in Run(EMPTY, events).rows && !Run(EMPTY, events).rows[id].delivery.Sending?
    ensures id in Run(EMPTY, events).latest
    ensures exists k :: 0 <= k && MarkedAt(events, k, Run(EMPTY, events).rows[id], Run(EMPTY, events).latest[id])
  {
    var init, e := events[..|events| - 1], events[|events| - 1];
    InvRun(EMPTY, init);
    DeliveryStep(Run(EMPTY, init), e, id);
    var before, row, i := Run(EMPTY, init).rows[id], Run(EMPTY, events).rows[id], Run(EMPTY, events).latest[id];
    if SameMark(before, row) {
      DeliveryProvenance(init, id);
      var k :| 0 <= k && MarkedAt(init, k, before, i);
      assert MarkedAt(events, k, row, i);
    } else {
      assert MarkedAt(events, |init|, row, i);
    }
  }

  // ---- The invitation service inside governance --------------------------------------------

  /** Every step acts on memberships as one legal governance event, or not at all. */
  lemma StepIsGovernance(s: State, e: Event)
    requires Inv(s) && Legal(s, e)
    ensures var after := Apply(s, e).0.gov;
            after == s.gov
            || exists g :: Org.Legal(s.gov, g) && after == Org.Apply(s.gov, g).0 && (g.ChangeStatus? ==> e == Governance(g))
  {
    var after := Apply(s, e).0.gov;
    if after != s.gov {
      match e
      case Governance(g) =>
      case Create(_, org, actor, _, role, _, _, _) =>
        assert after == Org.Apply(s.gov, Org.Invite(org, actor, role)).0;
      case Accept(raw, user, _, _) =>
        var id := FindByHash(s.rows, HashOf(raw)).value;
        var g := Org.Join(s.rows[id].offer, user);
        assert after == Org.Apply(s.gov, g).0 && Org.Legal(s.gov, g);
      case _ =>
    }
  }

  /** Creating, resending, accepting and cancelling invitations never leaves an organization without an owner. */
  lemma StepKeepsOwners(s: State, e: Event)
    requires Inv(s) && Legal(s, e) && Org.EveryOrgOwned(s.gov)
    requires e.Governance? ==> Org.StatusAllowed(e.event)
    ensures Org.EveryOrgOwned(Apply(s, e).0.gov)
  {
    StepIsGovernance(s, e);
    var after := Apply(s, e).0.gov;
    if after != s.gov {
      var g :| Org.Legal(s.gov, g) && after == Org.Apply(s.gov, g).0 && (g.ChangeStatus? ==> e == Governance(g));
      Org.StepKeepsOwnersIff(s.gov, g);
    }
  }

  /** Over every run whose status changes obey the request schema, every organization stays owned. */
  lemma {:induction false} RunKeepsOwners(events: seq<Event>)
    requires LegalRun(EMPTY, events)
    requires forall k :: 0 <= k < |events| && events[k].Governance? ==> Org.StatusAllowed(events[k].event)
    ensures Org.EveryOrgOwned(Run(EMPTY, events).gov)
  {
    if events != [] {
      var init := events[..|events| - 1];
      RunKeepsOwners(init);
      InvRun(EMPTY, init);
      StepKeepsOwners(Run(EMPTY, init), events[|events| - 1]);
    }
  }

  /** The state after the first k events. */
  ghost function StateAt(events: seq<Event>, k: nat): State
    requires LegalRun(EMPTY, events) && k <= |events|
    decreases |events|
  {
    if k == |events| then Run(EMPTY, events) else StateAt(events[..|events| - 1], k)
  }

  lemma {:induction false} EarlierStates(events: seq<Event>, k: nat)
    requires LegalRun(EMPTY, events) && k <= |events|
    ensures LegalRun(EMPTY, events[..k]) && StateAt(events, k) == Run(EMPTY, events[..k])
  {
    if k == |events| {
      assert events[..k] == events;
    } else {
      EarlierStates(events[..|events| - 1], k);
      assert events[..|events| - 1][..k] == events[..k];
    }
  }

  /** The c-th event offered OWNER in this invitation, and its actor was an active OWNER at that time. */
  ghost predicate OfferedAt(events: seq<Event>, c: nat, id: InvitationId, org: Org.OrgId)
    requires LegalRun(EMPTY, events)
  {
    && c < |events| && events[c].Create? && events[c].id == id && events[c].org == org && events[c].role.Owner?
    && Org.IsActiveOwner(StateAt(events, c).gov.members, org, events[c].actor)
  }

  /** After k events this token opens an invitation to org as OWNER, sent by an active OWNER. */
  ghost predicate OwnerTokenAt(events: seq<Event>, k: nat, raw: Token, org: Org.OrgId)
    requires LegalRun(EMPTY, events) && k <= |events|
  {
    var s := StateAt(events, k);
    exists id, c :: 0 <= c < k && id in s.rows && s.rows[id].tokenHash == HashOf(raw) && OfferedAt(events, c, id, org)
  }

  /** The k-th event made user an OWNER of org with authority. */
  ghost predicate GrantedAt(events: seq<Event>, k: nat, org: Org.OrgId, user: Org.UserId)
    requires LegalRun(EMPTY, events)
  {
    && k < |events|
    && match events[k]
       case Governance(g) =>
         || g == Org.Create(org, user)
         || (g.ChangeRole? && g.org == org && g.target == user && g.role.Owner?
             && Org.IsActiveOwner(StateAt(events, k).gov.members, org, g.actor))
       case Accept(raw, u, _, _) =>
         u == user && OwnerTokenAt(events, k, raw, org)
       case _ => false
  }

  /** An invitation's offer is what it was created with, and only an OWNER can create one for OWNER. */
  lemma OfferKept(s: State, e: Event, id: InvitationId)
    requires Legal(s, e) && !e.Create? && id in Apply(s, e).0.rows
    ensures id in s.rows && Apply(s, e).0.rows[id].offer == s.rows[id].offer
  {
    match e
    case Accept(raw, user, email, now) =>
    case Resend(_, _, _, _, _, _) =>
    case Record(_, _, _) =>
    case Cancel(_, _, _) =>
    case _ =>
  }

  lemma OfferMade(s: State, e: Event, id: InvitationId)
    requires Legal(s, e) && e.Create? && id in Apply(s, e).0.rows && (id in s.rows ==> Apply(s, e).0.rows[id].offer != s.rows[id].offer)
    ensures e.id == id && Apply(s, e).0.rows[id].offer == Org.Offer(e.org, e.role, e.actor)
    ensures e.role.Owner? ==> Org.IsActiveOwner(s.gov.members, e.org, e.actor)
  {}

  /** An invitation as OWNER goes back to an actor who was an active OWNER when inviting. */
  lemma {:induction false} InvitedByOwner(events: seq<Event>, id: InvitationId)
    requires LegalRun(EMPTY, events) && id in Run(EMPTY, events).rows && Run(EMPTY, events).rows[id].offer.role.Owner?
    ensures exists c :: 0 <= c < |events| && OfferedAt(events, c, id, Run(EMPTY, events).rows[id].offer.org)
  {
    var init, e := events[..|events| - 1], events[|events| - 1];
    var before, offer := Run(EMPTY, init), Run(EMPTY, events).rows[id].offer;
    InvRun(EMPTY, init);
    EarlierStates(events, |init|);
    if id in before.rows && before.rows[id].offer == offer {
      InvitedByOwner(init, id);
      var c :| 0 <= c < |init| && OfferedAt(init, c, id, offer.org);
      StillOffered(events, init, c, id, offer.org);
    } else {
      if !e.Create? {
        OfferKept(before, e, id);
      }
      OfferMade(before, e, id);
      assert OfferedAt(events, |init|, id, offer.org);
    }
  }

  lemma StillOffered(events: seq<Event>, init: seq<Event>, c: nat, id: InvitationId, org: Org.OrgId)
    requires LegalRun(EMPTY, events) && events != [] && init == events[..|events| - 1] && OfferedAt(init, c, id, org)
    ensures OfferedAt(events, c, id, org)
  {}

  /** A step that makes somebody an OWNER is creation, a grant by an active OWNER, or the acceptance of such an invitation. */
  lemma OwnerStep(s: State, e: Event, org: Org.OrgId, user: Org.UserId)
    requires Inv(s) && Legal(s, e)
    requires Org.HasOwnerRole(Apply(s, e).0.gov, org, user) && !Org.HasOwnerRole(s.gov, org, user)
    ensures match e
            case Governance(g) =>
              || g == Org.Create(org, user)
              || (g.ChangeRole? && g.org == org && g.target == user && g.role.Owner?
                  && Org.IsActiveOwner(s.gov.members, org, g.actor))
            case Accept(raw, u, _, _) =>
              u == user && FindByHash(s.rows, HashOf(raw)).Some?
              && var row := s.rows[FindByHash(s.rows, HashOf(raw)).value]; row.offer.org == org && row.offer.role.Owner?
            case _ => false
  {}

  ghost predicate HeldSince(events: seq<Event>, k: nat, org: Org.OrgId, user: Org.UserId)
    requires LegalRun(EMPTY, events)
  {
    forall m :: k < m <= |events| ==> Org.HasOwnerRole(StateAt(events, m).gov, org, user)
  }

  /** Every OWNER role at the end of any run goes back to creation, to a grant by an active OWNER, or to an invitation sent by
      one, and was held ever since. */
  lemma {:induction false} OwnerProvenance(events: seq<Event>, org: Org.OrgId, user: Org.UserId)
    requires LegalRun(EMPTY, events) && Org.HasOwnerRole(Run(EMPTY, events).gov, org, user)
    ensures exists k :: 0 <= k < |events| && GrantedAt(events, k, org, user) && HeldSince(events, k, org, user)
  {
    var init := events[..|events| - 1];
    if Org.HasOwnerRole(Run(EMPTY, init).gov, org, user) {
      OwnerProvenance(init, org, user);
      var k :| 0 <= k < |init| && GrantedAt(init, k, org, user) && HeldSince(init, k, org, user);
      StillGranted(events, init, k, org, user);
    } else {
      NewlyGranted(events, init, org, user);
      HeldAtEnd(events, org, user);
    }
  }

  lemma StillGranted(events: seq<Event>, init: seq<Event>, k: nat, org: Org.OrgId, user: Org.UserId)
    requires LegalRun(EMPTY, events) && events != [] && init == events[..|events| - 1]
    requires GrantedAt(init, k, org, user) && HeldSince(init, k, org, user)
    requires Org.HasOwnerRole(Run(EMPTY, events).gov, org, user)
    ensures GrantedAt(events, k, org, user) && HeldSince(events, k, org, user)
  {
    if events[k].Accept? {
      var s := StateAt(init, k);
      var id, c :| 0 <= c < k && id in s.rows && s.rows[id].tokenHash == HashOf(events[k].raw) && OfferedAt(init, c, id, org);
      assert OfferedAt(events, c, id, org);
    }
  }

  lemma HeldAtEnd(events: seq<Event>, org: Org.OrgId, user: Org.UserId)
    requires LegalRun(EMPTY, events) && events != [] && Org.HasOwnerRole(Run(EMPTY, events).gov, org, user)
    ensures HeldSince(events, |events| - 1, org, user)
  {
    assert events[..|events|] == events;
  }

  lemma NewlyGranted(events: seq<Event>, init: seq<Event>, org: Org.OrgId, user: Org.UserId)
    requires LegalRun(EMPTY, events) && events != [] && init == events[..|events| - 1]
    requires Org.HasOwnerRole(Run(EMPTY, events).gov, org, user) && !Org.HasOwnerRole(Run(EMPTY, init).gov, org, user)
    ensures GrantedAt(events, |init|, org, user)
  {
    var before, e := Run(EMPTY, init), events[|events| - 1];
    InvRun(EMPTY, init);
    OwnerStep(before, e, org, user);
    assert StateAt(events, |init|) == before;
    if e.Accept? {
      OwnerToken(events, init, e.raw, FindByHash(before.rows, HashOf(e.raw)).value, org);
    }
  }

  lemma OwnerToken(events: seq<Event>, init: seq<Event>, raw: Token, id: InvitationId, org: Org.OrgId)
    requires LegalRun(EMPTY, events) && events != [] && init == events[..|events| - 1]
    requires var rows := Run(EMPTY, init).rows;
             id in rows && rows[id].tokenHash == HashOf(raw) && rows[id].offer.org == org && rows[id].offer.role.Owner?
    ensures OwnerTokenAt(events, |init|, raw, org)
  {
    InvitedByOwner(init, id);
    var c :| 0 <= c < |init| && OfferedAt(init, c, id, org);
    assert OfferedAt(events, c, id, org);
    assert StateAt(events, |init|) == Run(EMPTY, init);
  }

  // ---- The stored rows -------------------------------------------------------------------

  /** What a send takes with it out of the first transaction. */
  datatype Snapshot = Snapshot(id: InvitationId, org: Org.OrgId, generation: nat)

  class Invitation {
    const offer: Org.Offer
    const email: string
    var tokenHash: TokenHash
    var status: Status
    var expiresAt: int
    var acceptedAt: Option<int>
    var delivery: Delivery
    var errorCode: Option<string>
    var attemptAt: int
    var deliveredAt: Option<int>
    var generation: nat

    constructor (offer: Org.Offer, email: string, tokenHash: TokenHash, expiresAt: int, attemptAt: int)
      ensures Value() == Row(offer, email, tokenHash, Pending, expiresAt, None, Sending, None, attemptAt, None, 0)
    {
      this.offer := offer;
      this.email := email;
      this.tokenHash := tokenHash;
      status := Pending;
      this.expiresAt := expiresAt;
      acceptedAt := None;
      delivery := Sending;
      errorCode := None;
      this.attemptAt := attemptAt;
      deliveredAt := None;
      generation := 0;
    }

    /** A new token, a full expiry window, and a generation no earlier send carries. */
    method Rotate(hash: TokenHash, now: int, ttl: int)
      modifies this
      ensures Value() == old(Value()).(tokenHash := hash, expiresAt := now + ttl, delivery := Sending, errorCode := None,
                                       attemptAt := now, generation := old(generation) + 1)
    {
      tokenHash := hash;
      expiresAt := now + ttl;
      delivery := Sending;
      errorCode := None;
      attemptAt := now;
      generation := generation + 1;
    }

    /** Leaving PENDING raises the generation, so a send still in flight is out of date. */
    method Leave(status: Status)
      modifies this`status, this`generation
      ensures Value() == old(Value()).(status := status, generation := old(generation) + 1)
    {
      this.status := status;
      generation := generation + 1;
    }

    method Take(now: int)
      modifies this
      ensures Value() == old(Value()).(status := Accepted, acceptedAt := Some(now), generation := old(generation) + 1)
    {
      Leave(Accepted);
      acceptedAt := Some(now);
    }

    function Value(): Row
      reads this
    {
      Row(offer, email, tokenHash, status, expiresAt, acceptedAt, delivery, errorCode, attemptAt, deliveredAt, generation)
    }
  }

  class InvitationService {
    const organizations: Org.OrganizationService
    var users: map<string, Org.UserId>
    var table: map<InvitationId, Invitation>
    ghost var sends: seq<Send>
    ghost var latest: map<InvitationId, nat>

    ghost predicate Valid()
      reads this, organizations
    {
      && organizations.Valid()
      && (forall a, b :: a in table && b in table && a != b ==> table[a] != table[b])
    }

    function Rows(): map<InvitationId, Row>
      reads this, table.Values
    {
      map id | id in table :: table[id].Value()
    }

    ghost function View(): State
      reads this, table.Values, organizations, organizations.table.Values
    {
      State(organizations.View(), users, Rows(), sends, latest)
    }

    constructor (organizations: Org.OrganizationService)
      requires organizations.Valid() && organizations.View() == Org.EMPTY
      ensures Valid() && View() == EMPTY
    {
      this.organizations := organizations;
      users := map[];
      table := map[];
      sends := [];
      latest := map[];
    }

    /** After a write to one row, the table differs at that row alone. */
    twostate lemma Stored(id: InvitationId)
      requires table == old(table) && id in table
      requires forall a :: a in table && a != id ==> unchanged(table[a])
      ensures Rows() == old(Rows())[id := table[id].Value()]
    {}

    twostate lemma Kept()
      requires table == old(table)
      requires forall a :: a in table ==> unchanged(table[a])
      ensures Rows() == old(Rows())
    {}

    twostate lemma Inserted(id: InvitationId, new invitation: Invitation)
      requires table == old(table)[id := invitation]
      requires forall a :: a in old(table) ==> unchanged(old(table)[a])
      ensures Rows() == old(Rows())[id := invitation.Value()]
    {}

    ghost method Remember(send: Send)
      modifies this`sends, this`latest
      ensures sends == old(sends) + [send] && latest == old(latest)[send.id := |old(sends)|]
    {
      latest := latest[send.id := |sends|];
      sends := sends + [send];
    }

    ghost method Settle(i: nat, verdict: Verdict)
      requires i < |sends|
      modifies this`sends
      ensures sends == old(sends)[i := old(sends)[i].(verdict := verdict)]
    {
      sends := sends[i := sends[i].(verdict := verdict)];
    }

    method Access(org: Org.OrgId, id: InvitationId, actor: Org.UserId) returns (refusal: Option<Outcome>)
      ensures refusal == AccessRefusal(View(), org, id, actor)
    {
      var members := organizations.Rows();
      var denied := Org.CapabilityRefusal(members, org, actor);
      if denied.Some? { return Some(Refused(denied.value)); }
      return if id in table && table[id].offer.org == org then None else Some(InvitationNotFound);
    }

    /** Whether an address already has a pending invitation. */
    method HasPending(org: Org.OrgId, email: string) returns (found: bool)
      ensures found == PendingFor(Rows(), org, email)
    {
      var rows := Rows();
      found := exists id :: id in rows && rows[id].offer.org == org && rows[id].email == email && rows[id].status.Pending?;
    }

    /** The checks before a new invitation is stored, in order. */
    method Admit(org: Org.OrgId, actor: Org.UserId, email: string, role: Org.Role) returns (refusal: Option<Outcome>)
      ensures var (after, outcome) := ApplyCreate(View(), 0, org, actor, email, role, 0, 0, 0);
              refusal == if outcome.Done? then None else Some(outcome)
    {
      var members := organizations.Rows();
      var denied := Org.CapabilityRefusal(members, org, actor);
      if denied.Some? { return Some(Refused(denied.value)); }
      if !Org.CanAssignRole(members[(org, actor)].role, role) { return Some(Refused(Org.UnsafeRoleAssignment)); }
      if email in users && (org, users[email]) in members { return Some(AlreadyMember); }
      var pending := HasPending(org, email);
      return if pending then Some(ActiveInvitationExists) else None;
    }

    /** Store a pending row together with the snapshot of its first send. */
    method Insert(id: InvitationId, offer: Org.Offer, email: string, raw: Token, now: int, ttl: int)
      requires Valid()
      modifies this`table, this`sends, this`latest
      ensures Valid()
      ensures Rows() == old(Rows())[id := Row(offer, email, HashOf(raw), Pending, now + ttl, None, Sending, None, now, None, 0)]
      ensures sends == old(sends) + [Send(id, offer.org, 0, raw, InFlight)] && latest == old(latest)[id := |old(sends)|]
    {
      var invitation := new Invitation(offer, email, HashOf(raw), now + ttl, now);
      Remember(Send(id, offer.org, 0, raw, InFlight));
      table := table[id := invitation];
      Inserted(id, invitation);
    }

    /** First transaction of a new invitation. */
    method Create(id: InvitationId, org: Org.OrgId, actor: Org.UserId, email: string, role: Org.Role,
                  raw: Token, now: int, ttl: int) returns (outcome: Outcome, snapshot: Option<Snapshot>)
      requires Valid()
      modifies this, organizations`offers
      ensures Valid() && (View(), outcome) == ApplyCreate(old(View()), id, org, actor, email, role, raw, now, ttl)
      ensures snapshot == if outcome.Done? then Some(Snapshot(id, org, 0)) else None
    {
      var refusal := Admit(org, actor, email, role);
      if refusal.Some? { return refusal.value, None; }
      var granted := organizations.Invite(org, actor, role);
      label Granted:
      Insert(id, Org.Offer(org, role, actor), email, raw, now, ttl);
      organizations.Kept@Granted();
      return Done, Some(Snapshot(id, org, 0));
    }

    /** First transaction of a resend: rotate the token and raise the generation. */
    method Resend(org: Org.OrgId, id: InvitationId, actor: Org.UserId, raw: Token, now: int, ttl: int)
      returns (outcome: Outcome, snapshot: Option<Snapshot>)
      requires Valid()
      modifies this`sends, this`latest, table.Values
      ensures Valid() && (View(), outcome) == ApplyResend(old(View()), org, id, actor, raw, now, ttl)
      ensures snapshot == if outcome.Done? then Some(Snapshot(id, org, View().rows[id].generation)) else None
    {
      var refusal := Access(org, id, actor);
      if refusal.Some? { return refusal.value, None; }
      var invitation := table[id];
      if !invitation.status.Pending? { return InvitationUnavailable, None; }
      if IsExpired(invitation.expiresAt, now) {
        invitation.status := Expired;
        Stored(id);
        organizations.Kept();
        return InvitationExpired, None;
      }
      Renew(id, raw, now, ttl);
      organizations.Kept();
      return Done, Some(Snapshot(id, org, invitation.generation));
    }

    /** Rotate the token of a row and take the snapshot of its next send. */
    method Renew(id: InvitationId, raw: Token, now: int, ttl: int)
      requires Valid() && id in table
      modifies this`sends, this`latest, table[id]
      ensures Valid()
      ensures var row := old(Rows())[id];
              && Rows() == old(Rows())[id := row.(tokenHash := HashOf(raw), expiresAt := now + ttl, delivery := Sending,
                                                  errorCode := None, attemptAt := now, generation := row.generation + 1)]
              && sends == old(sends) + [Send(id, row.offer.org, row.generation + 1, raw, InFlight)]
      ensures latest == old(latest)[id := |old(sends)|]
    {
      var invitation := table[id];
      invitation.Rotate(HashOf(raw), now, ttl);
      Remember(Send(id, invitation.offer.org, invitation.generation, raw, InFlight));
      Stored(id);
    }

    /** Second transaction of a send: apply the provider's result if the generation still matches. */
    method Record(snapshot: Snapshot, result: ProviderResult, now: int, ghost i: nat) returns (outcome: Outcome)
      requires Valid() && i < |sends|
      requires snapshot == Snapshot(sends[i].id, sends[i].org, sends[i].generation)
      modifies this`sends, table.Values
      ensures Valid() && (View(), outcome) == ApplyRecord(old(View()), i, result, now)
    {
      var id := snapshot.id;
      if id !in table || table[id].offer.org != snapshot.org {
        Settle(i, RowGone);
        Kept();
        organizations.Kept();
        return InvitationNotFound;
      }
      var invitation := table[id];
      if invitation.generation != snapshot.generation {
        Settle(i, Discarded);
        Kept();
        organizations.Kept();
        return StaleResult;
      }
      var succeeded := result.Success?;
      invitation.delivery := if succeeded then Delivered else Failed;
      invitation.errorCode := if succeeded then None else Some(result.code);
      if succeeded {
        invitation.deliveredAt := Some(now);
      }
      Settle(i, if succeeded then AppliedSuccess else AppliedFailure);
      Stored(id);
      organizations.Kept();
      return Done;
    }

    /** The row stored under a token's hash: unique, because stored hashes are. */
    method Lookup(hash: TokenHash) returns (found: Option<InvitationId>)
      requires Valid() && Inv(View())
      ensures found == FindByHash(Rows(), hash)
      ensures found.Some? ==> found.value in table
    {
      var rows := Rows();
      if exists id :: id in rows && rows[id].tokenHash == hash {
        var id :| id in rows && rows[id].tokenHash == hash;
        FoundByHash(View(), id);
        return Some(id);
      }
      return None;
    }

    method Accept(raw: Token, user: Org.UserId, email: string, now: int) returns (outcome: Outcome)
      requires Valid() && Inv(View())
      modifies table.Values, organizations`table, organizations.table.Values
      ensures Valid() && (View(), outcome) == ApplyAccept(old(View()), raw, user, email, now)
    {
      var found := Lookup(HashOf(raw));
      if found.None? { return InvitationNotFound; }
      outcome := AcceptRow(found.value, user, email, now);
    }

    /** Accepting the locked row: membership and invitation change in one transaction. */
    method AcceptRow(id: InvitationId, user: Org.UserId, email: string, now: int) returns (outcome: Outcome)
      requires Valid() && id in table
      modifies table.Values, organizations`table, organizations.table.Values
      ensures Valid() && (View(), outcome) == ApplyAcceptRow(old(View()), id, user, email, now)
    {
      var invitation := table[id];
      var key := (invitation.offer.org, user);
      if invitation.status.Accepted? && key in organizations.table { return Done; }
      if !invitation.status.Pending? { return InvitationUnavailable; }
      if IsExpired(invitation.expiresAt, now) {
        invitation.Leave(Expired);
        Stored(id);
        organizations.Kept();
        return InvitationExpired;
      }
      if invitation.email != email { return EmailMismatch; }
      outcome := Enrol(id, user, now);
    }

    method Enrol(id: InvitationId, user: Org.UserId, now: int) returns (outcome: Outcome)
      requires Valid() && id in table
      modifies table.Values, organizations`table, organizations.table.Values
      ensures Valid() && (View(), outcome) == ApplyEnrol(old(View()), id, user, now)
    {
      var invitation := table[id];
      var joined := organizations.Join(invitation.offer, user);
      label Joined:
      if !joined.Done? {
        Kept();
        return AlreadyMember;
      }
      invitation.Take(now);
      Stored(id);
      organizations.Kept@Joined();
      ghost var row := old(Rows())[id];
      assert Rows() == old(Rows())[id := row.(status := Accepted, acceptedAt := Some(now), generation := row.generation + 1)];
      return Done;
    }

    method Cancel(org: Org.OrgId, id: InvitationId, actor: Org.UserId) returns (outcome: Outcome)
      requires Valid()
      modifies table.Values
      ensures Valid() && (View(), outcome) == ApplyCancel(old(View()), org, id, actor)
    {
      var refusal := Access(org, id, actor);
      if refusal.Some? { return refusal.value; }
      var invitation := table[id];
      if invitation.status.Pending? {
        invitation.Leave(Cancelled);
        Stored(id);
        organizations.Kept();
      }
      return Done;
    }
  }
}
