/** AI generation (services/ai.py): idempotency keys, the hourly quota, bounded retry and terminal states. */
module AiRequests {
  import opened Prelude

  type RequestId = nat
  type OrgId = nat
  type Key = string
  type Fingerprint = nat
  type Hour = nat

  const MAX_REQUESTS_PER_HOUR := 100
  const MAX_PROVIDER_ATTEMPTS := 2
  const MICROSECOND := 1000000
  const HOUR := 3600 * MICROSECOND

  datatype Code = Disabled | Timeout | Retryable | InvalidResponse | ProviderFailed
  /** One provider call: a draft (valid when it passes the content schema), a provider error, or any other exception. */
  datatype Answer = Draft(text: string, valid: bool) | Error(code: Code, retryable: bool) | Unexpected

  datatype Status = Running | Completed | Failed | TimedOut | ProviderDisabled | Invalid
  datatype Request = Request(
    org: OrgId,
    key: Key,
    fingerprint: Fingerprint,
    status: Status,
    errorCode: Option<string>,
    finishedAt: Option<nat>)
  datatype Response = Response(request: RequestId, org: OrgId, text: string)
  datatype Usage = Usage(count: nat, tokens: nat)
  /** One committed request, with the window and the tokens it was charged. */
  datatype Charge = Charge(request: RequestId, org: OrgId, hour: Hour, tokens: nat)

  type Requests = map<RequestId, Request>
  type Windows = map<(OrgId, Hour), Usage>

  /** log is history. */
  datatype State = State(requests: Requests, responses: seq<Response>, usage: Windows, log: seq<Charge>)

  const EMPTY := State(map[], [], map[], [])

  /** What validating the payload, the template and the source leads to; the fingerprint hashes all of them. */
  datatype Prepared = Unsupported | NoTemplate | NoSource | Ready(fingerprint: Fingerprint)
  /** Where the process stops, if it does: before the provider is called, after it, or after the draft was validated. */
  datatype Fault = NoFault | BeforeProvider | AfterProvider | BeforeCommit

  datatype Call = Call(id: RequestId, org: OrgId, key: Key, prepared: Prepared, now: nat, finished: nat, enabled: bool,
                       answers: seq<Answer>, fault: Fault)

  datatype Outcome =
    | Rejected(why: Prepared) | Conflict | Replayed(id: RequestId) | RateLimited(retryAfter: nat) | Interrupted
    | Refused(status: Status, code: string) | Answered(id: RequestId)

  function HourOf(now: nat): Hour { now / HOUR }

  /** Whole seconds to the end of the window, at least one. */
  function RetryAfter(now: nat): nat {
    var left := (HOUR - now % HOUR) / MICROSECOND;
    if left < 1 then 1 else left
  }

  // ---- The provider -------------------------------------------------------------------------------

  predicate Retries(answer: Answer) { answer.Error? && answer.retryable }

  /** The answer that counts, and how many calls were made for it. */
  method InvokeProvider(enabled: bool, answers: seq<Answer>) returns (answer: Answer, calls: nat)
    requires |answers| == MAX_PROVIDER_ATTEMPTS
    ensures calls <= MAX_PROVIDER_ATTEMPTS && (calls == 0 <==> !enabled)
    ensures calls == 0 ==> answer == Error(Disabled, false)
    ensures calls > 0 ==> answer == answers[calls - 1] && (Retries(answer) ==> calls == MAX_PROVIDER_ATTEMPTS)
    ensures forall k :: 0 <= k < calls - 1 ==> Retries(answers[k])
    ensures answer == Invoked(enabled, answers)
  {
    calls := 0;
    if !enabled { return Error(Disabled, false), 0; }
    for attempt := 0 to MAX_PROVIDER_ATTEMPTS
      invariant calls == attempt
      invariant attempt < MAX_PROVIDER_ATTEMPTS
      invariant forall k :: 0 <= k < attempt ==> Retries(answers[k])
    {
      answer, calls := answers[attempt], calls + 1;
      if !answer.Error? { return; }
      if !answer.retryable || attempt + 1 >= MAX_PROVIDER_ATTEMPTS { return; }
    }
    answer := Error(ProviderFailed, false);
  }

  function Invoked(enabled: bool, answers: seq<Answer>): Answer
    requires |answers| == MAX_PROVIDER_ATTEMPTS
  {
    if !enabled then Error(Disabled, false) else if Retries(answers[0]) then answers[1] else answers[0]
  }

  // ---- Steps --------------------------------------------------------------------------------------

  /** Status and public error code of a provider failure. */
  function FailureOf(code: Code): (Status, string) {
    match code
    case Disabled => (ProviderDisabled, "AI_PROVIDER_DISABLED")
    case Timeout => (TimedOut, "AI_PROVIDER_TIMEOUT")
    case InvalidResponse => (Invalid, "AI_INVALID_RESPONSE")
    case Retryable => (Failed, "AI_PROVIDER_FAILED")
    case ProviderFailed => (Failed, "AI_PROVIDER_FAILED")
  }

  function Tokens(text: string): nat {
    if |text| / 4 < 1 then 1 else |text| / 4
  }

  function UsageOf(usage: Windows, org: OrgId, hour: Hour): Usage {
    if (org, hour) in usage then usage[(org, hour)] else Usage(0, 0)
  }

  ghost function Existing(requests: Requests, org: OrgId, key: Key): Option<RequestId> {
    if exists id :: id in requests && requests[id].org == org && requests[id].key == key
    then var id :| id in requests && requests[id].org == org && requests[id].key == key; Some(id)
    else None
  }

  /** Commit one request in its terminal state, charged to the window of the call. */
  function Commit(s: State, c: Call, status: Status, errorCode: Option<string>, tokens: nat): State
    requires c.prepared.Ready?
  {
    var hour := HourOf(c.now);
    var used := UsageOf(s.usage, c.org, hour);
    s.(requests := s.requests[c.id := Request(c.org, c.key, c.prepared.fingerprint, status, errorCode, Some(c.finished))],
       usage := s.usage[(c.org, hour) := Usage(used.count + 1, used.tokens + tokens)],
       log := s.log + [Charge(c.id, c.org, hour, tokens)])
  }

  /** What the answer makes of the request. */
  function Settled(s: State, c: Call, answer: Answer): (State, Outcome)
    requires c.prepared.Ready?
  {
    match answer
    case Error(code, _) =>
      (Commit(s, c, FailureOf(code).0, Some(FailureOf(code).1), 0), Refused(FailureOf(code).0, FailureOf(code).1))
    case Unexpected => (Commit(s, c, Failed, Some("AI_PROVIDER_FAILED"), 0), Refused(Failed, "AI_PROVIDER_FAILED"))
    case Draft(text, valid) =>
      if c.fault.AfterProvider? then (s, Interrupted)
      else if !valid then (Commit(s, c, Invalid, Some("AI_INVALID_RESPONSE"), 0), Refused(Invalid, "AI_INVALID_RESPONSE"))
      else if c.fault.BeforeCommit? then (s, Interrupted)
      else (Commit(s, c, Completed, None, Tokens(text)).(responses := s.responses + [Response(c.id, c.org, text)]),
            Answered(c.id))
  }

  /** Past the idempotency key and the quota. */
  function ApplyAttempt(s: State, c: Call): (State, Outcome)
    requires c.prepared.Ready? && |c.answers| == MAX_PROVIDER_ATTEMPTS
  {
    if c.fault.BeforeProvider? then (s, Interrupted) else Settled(s, c, Invoked(c.enabled, c.answers))
  }

  ghost function Apply(s: State, c: Call): (State, Outcome)
    requires |c.answers| == MAX_PROVIDER_ATTEMPTS
  {
    if !c.prepared.Ready? then (s, Rejected(c.prepared))
    else
      match Existing(s.requests, c.org, c.key)
      case Some(id) =>
        if s.requests[id].fingerprint != c.prepared.fingerprint then (s, Conflict) else (s, Replayed(id))
      case None =>
        if UsageOf(s.usage, c.org, HourOf(c.now)).count >= MAX_REQUESTS_PER_HOUR then (s, RateLimited(RetryAfter(c.now)))
        else ApplyAttempt(s, c)
  }

  /** Request ids are fresh. */
  predicate Legal(s: State, c: Call) {
    c.id !in s.requests && |c.answers| == MAX_PROVIDER_ATTEMPTS
  }

  // ---- Invariant ----------------------------------------------------------------------------------

  function CountIn(log: seq<Charge>, org: OrgId, hour: Hour): nat {
    if log == [] then 0
    else
      var last := log[|log| - 1];
      CountIn(log[..|log| - 1], org, hour) + if last.org == org && last.hour == hour then 1 else 0
  }

  function TokensIn(log: seq<Charge>, org: OrgId, hour: Hour): nat {
    if log == [] then 0
    else
      var last := log[|log| - 1];
      TokensIn(log[..|log| - 1], org, hour) + if last.org == org && last.hour == hour then last.tokens else 0
  }

  /** Every window holds what its committed requests were charged, and never more than the limit. */
  ghost predicate UsageOk(usage: Windows, log: seq<Charge>) {
    forall org, hour :: var used := UsageOf(usage, org, hour);
      used == Usage(CountIn(log, org, hour), TokensIn(log, org, hour)) && used.count <= MAX_REQUESTS_PER_HOUR
  }

  predicate Charged(log: seq<Charge>, id: RequestId) {
    exists i :: 0 <= i < |log| && log[i].request == id
  }

  /** The log lists each committed request once. */
  ghost predicate LogOk(requests: Requests, log: seq<Charge>) {
    && (forall i, j :: 0 <= i < j < |log| ==> log[i].request != log[j].request)
    && (forall i :: 0 <= i < |log| ==> log[i].request in requests && log[i].org == requests[log[i].request].org)
    && (forall id :: id in requests ==> Charged(log, id))
  }

  predicate SameKey(a: Request, b: Request) { a.org == b.org && a.key == b.key }

  ghost predicate KeysOk(requests: Requests) {
    forall a, b :: a in requests && b in requests && a != b ==> !SameKey(requests[a], requests[b])
  }

  predicate TerminalOk(r: Request) {
    r.status != Running && r.finishedAt.Some? && (r.status == Completed <==> r.errorCode.None?)
  }

  predicate HasResponse(responses: seq<Response>, id: RequestId) {
    exists i :: 0 <= i < |responses| && responses[i].request == id
  }

  /** COMPLETED requests have exactly one response, all others none. */
  ghost predicate ResponsesOk(requests: Requests, responses: seq<Response>) {
    && (forall i, j :: 0 <= i < j < |responses| ==> responses[i].request != responses[j].request)
    && (forall i :: 0 <= i < |responses| ==> responses[i].request in requests)
    && (forall id :: id in requests ==>
          TerminalOk(requests[id]) && (requests[id].status == Completed <==> HasResponse(responses, id)))
  }

  ghost predicate Inv(s: State) {
    && UsageOk(s.usage, s.log)
    && LogOk(s.requests, s.log)
    && KeysOk(s.requests)
    && ResponsesOk(s.requests, s.responses)
  }

  /** The request the key belongs to is the only one it could be. */
  lemma ExistingIs(s: State, id: RequestId)
    requires KeysOk(s.requests) && id in s.requests
    ensures Existing(s.requests, s.requests[id].org, s.requests[id].key) == Some(id)
  {
    var found := Existing(s.requests, s.requests[id].org, s.requests[id].key).value;
    assert SameKey(s.requests[found], s.requests[id]);
  }

  lemma CommitKeepsInv(s: State, c: Call, status: Status, errorCode: Option<string>, tokens: nat, responses: seq<Response>)
    requires Inv(s) && Legal(s, c) && c.prepared.Ready? && Existing(s.requests, c.org, c.key).None?
    requires UsageOf(s.usage, c.org, HourOf(c.now)).count < MAX_REQUESTS_PER_HOUR
    requires status != Running && (status == Completed <==> errorCode.None?)
    requires status == Completed ==> exists text :: responses == s.responses + [Response(c.id, c.org, text)]
    requires status != Completed ==> responses == s.responses
    ensures Inv(Commit(s, c, status, errorCode, tokens).(responses := responses))
  {
    var after := Commit(s, c, status, errorCode, tokens);
    CommitUsage(s, c, status, errorCode, tokens);
    CommitLog(s, c, status, errorCode, tokens);
    forall id | id in after.requests
      ensures TerminalOk(after.requests[id]) && (after.requests[id].status == Completed <==> HasResponse(responses, id))
    {
      if status == Completed {
        var text :| responses == s.responses + [Response(c.id, c.org, text)];
        ResponseAdded(s.responses, Response(c.id, c.org, text), id);
      }
    }
  }

  lemma ResponseAdded(responses: seq<Response>, r: Response, id: RequestId)
    ensures HasResponse(responses + [r], id) <==> HasResponse(responses, id) || r.request == id
  {
    if HasResponse(responses, id) {
      var i :| 0 <= i < |responses| && responses[i].request == id;
      assert (responses + [r])[i].request == id;
    } else if r.request == id {
      assert (responses + [r])[|responses|].request == id;
    }
  }

  lemma CommitUsage(s: State, c: Call, status: Status, errorCode: Option<string>, tokens: nat)
    requires UsageOk(s.usage, s.log) && c.prepared.Ready?
    requires UsageOf(s.usage, c.org, HourOf(c.now)).count < MAX_REQUESTS_PER_HOUR
    ensures var after := Commit(s, c, status, errorCode, tokens); UsageOk(after.usage, after.log)
  {
    var after := Commit(s, c, status, errorCode, tokens);
    assert after.log[..|after.log| - 1] == s.log;
    forall org, hour ensures
      var used := UsageOf(after.usage, org, hour);
      used == Usage(CountIn(after.log, org, hour), TokensIn(after.log, org, hour)) && used.count <= MAX_REQUESTS_PER_HOUR
    {
      assert UsageOf(s.usage, org, hour) == Usage(CountIn(s.log, org, hour), TokensIn(s.log, org, hour));
    }
  }

  lemma CommitLog(s: State, c: Call, status: Status, errorCode: Option<string>, tokens: nat)
    requires LogOk(s.requests, s.log) && KeysOk(s.requests) && c.prepared.Ready? && c.id !in s.requests
    requires Existing(s.requests, c.org, c.key).None?
    ensures var after := Commit(s, c, status, errorCode, tokens); LogOk(after.requests, after.log) && KeysOk(after.requests)
  {
    var after := Commit(s, c, status, errorCode, tokens);
    forall id | id in after.requests ensures Charged(after.log, id) {
      if id == c.id {
        assert after.log[|s.log|].request == id;
      } else {
        var i :| 0 <= i < |s.log| && s.log[i].request == id;
        assert after.log[i].request == id;
      }
    }
  }

  lemma StepKeepsInv(s: State, c: Call)
    requires Inv(s) && Legal(s, c)
    ensures Inv(Apply(s, c).0)
  {
    if c.prepared.Ready? && Existing(s.requests, c.org, c.key).None?
       && UsageOf(s.usage, c.org, HourOf(c.now)).count < MAX_REQUESTS_PER_HOUR
    {
      match Invoked(c.enabled, c.answers)
      case Error(code, _) =>
        CommitKeepsInv(s, c, FailureOf(code).0, Some(FailureOf(code).1), 0, s.responses);
      case Unexpected =>
        CommitKeepsInv(s, c, Failed, Some("AI_PROVIDER_FAILED"), 0, s.responses);
      case Draft(text, valid) =>
        if valid {
          CommitKeepsInv(s, c, Completed, None, Tokens(text), s.responses + [Response(c.id, c.org, text)]);
        } else {
          CommitKeepsInv(s, c, Invalid, Some("AI_INVALID_RESPONSE"), 0, s.responses);
        }
    }
  }

  // ---- Runs ---------------------------------------------------------------------------------------

  ghost predicate LegalRun(s: State, calls: seq<Call>)
    decreases |calls|
  {
    calls == [] || (Legal(s, calls[0]) && LegalRun(Apply(s, calls[0]).0, calls[1..]))
  }

  ghost function Run(s: State, calls: seq<Call>): State
    requires LegalRun(s, calls)
    decreases |calls|
  {
    if calls == [] then s else Run(Apply(s, calls[0]).0, calls[1..])
  }

  lemma StepExtends(s: State, c: Call)
    requires Legal(s, c)
    ensures var after := Apply(s, c).0;
            && (forall id :: id in s.requests ==> id in after.requests && after.requests[id] == s.requests[id])
            && s.responses <= after.responses && s.log <= after.log
  {}

  /** A committed request is never touched again, nor is its response. */
  lemma {:induction false} CommittedForever(s: State, calls: seq<Call>, id: RequestId)
    requires Inv(s) && LegalRun(s, calls) && id in s.requests
    ensures var later := Run(s, calls);
            && Inv(later) && id in later.requests && later.requests[id] == s.requests[id]
            && s.responses <= later.responses && s.log <= later.log
    decreases |calls|
  {
    if calls != [] {
      StepKeepsInv(s, calls[0]);
      StepExtends(s, calls[0]);
      CommittedForever(Apply(s, calls[0]).0, calls[1..], id);
    }
  }

  lemma {:induction false} RunKeepsInv(s: State, calls: seq<Call>)
    requires Inv(s) && LegalRun(s, calls)
    ensures Inv(Run(s, calls))
    decreases |calls|
  {
    if calls != [] {
      StepKeepsInv(s, calls[0]);
      RunKeepsInv(Apply(s, calls[0]).0, calls[1..]);
    }
  }

  lemma ReachableInv(calls: seq<Call>)
    requires LegalRun(EMPTY, calls)
    ensures Inv(Run(EMPTY, calls))
  {
    RunKeepsInv(EMPTY, calls);
  }

  /** Whenever a key was committed, every later call with it changes nothing: it is answered with the same request,
      or with a conflict when anything that was fingerprinted differs. */
  lemma RetriesChangeNothing(s: State, calls: seq<Call>, id: RequestId, again: Call)
    requires Inv(s) && LegalRun(s, calls) && id in s.requests
    requires Legal(Run(s, calls), again) && again.prepared.Ready?
    requires again.org == s.requests[id].org && again.key == s.requests[id].key
    ensures var later := Run(s, calls);
            && Apply(later, again).0 == later
            && Apply(later, again).1
               == if again.prepared.fingerprint == s.requests[id].fingerprint then Replayed(id) else Conflict
  {
    CommittedForever(s, calls, id);
    ExistingIs(Run(s, calls), id);
  }

  lemma CountNext(log: seq<Charge>, x: Charge, org: OrgId, hour: Hour)
    ensures CountIn(log + [x], org, hour) == CountIn(log, org, hour) + if x.org == org && x.hour == hour then 1 else 0
  {
    assert (log + [x])[..|log|] == log;
  }

  /** A call commits exactly when it returns a draft or a provider failure; otherwise it changes nothing. */
  lemma CommitsIff(s: State, c: Call)
    requires Legal(s, c)
    ensures var (after, outcome) := Apply(s, c);
            && (c.id in after.requests <==> outcome.Answered? || outcome.Refused?)
            && (c.id !in after.requests ==> after == s)
            && (c.id in after.requests ==> exists tokens :: after.log == s.log + [Charge(c.id, c.org, HourOf(c.now), tokens)])
  {}

  /** Exactly a committing call is charged one unit, to its own window. */
  lemma ChargedIff(s: State, c: Call, org: OrgId, hour: Hour)
    requires Legal(s, c)
    ensures var (after, outcome) := Apply(s, c);
            var charged := (outcome.Answered? || outcome.Refused?) && org == c.org && hour == HourOf(c.now);
            CountIn(after.log, org, hour) == CountIn(s.log, org, hour) + if charged then 1 else 0
  {
    CommitsIff(s, c);
    var after := Apply(s, c).0;
    if c.id in after.requests {
      var tokens :| after.log == s.log + [Charge(c.id, c.org, HourOf(c.now), tokens)];
      CountNext(s.log, Charge(c.id, c.org, HourOf(c.now), tokens), org, hour);
    }
  }

  /** A ready call with a new key, below the quota of its hour. */
  ghost predicate Admitted(s: State, c: Call) {
    && c.prepared.Ready?
    && (forall id :: id in s.requests ==> s.requests[id].org != c.org || s.requests[id].key != c.key)
    && ((c.org, c.now / 3600000000) in s.usage ==> s.usage[(c.org, c.now / 3600000000)].count < 100)
  }

  /** The second answer counts exactly when the first is a retryable error; a disabled provider is not asked. */
  predicate Counts(c: Call, answer: Answer)
    requires |c.answers| == 2
  {
    if !c.enabled then answer == Error(Disabled, false)
    else answer == c.answers[if c.answers[0].Error? && c.answers[0].retryable then 1 else 0]
  }

  /** The state with this request committed to its hour. */
  ghost predicate Committed(s: State, c: Call, after: State, request: Request, tokens: nat) {
    var window := (c.org, c.now / 3600000000);
    var used := if window in s.usage then s.usage[window] else Usage(0, 0);
    && after.requests == s.requests[c.id := request]
    && after.usage == s.usage[window := Usage(used.count + 1, used.tokens + tokens)]
  }

  /** A call is answered exactly when it is admitted, the answer that counts is a valid draft and the process does not stop;
      the response holds that draft, and a quarter of its length, at least one, is charged as tokens. */
  lemma AnsweredIff(s: State, c: Call, answer: Answer)
    requires Legal(s, c) && Counts(c, answer)
    ensures var (after, outcome) := Apply(s, c);
            && (outcome.Answered? <==> Admitted(s, c) && answer.Draft? && answer.valid && c.fault == NoFault)
            && (outcome.Answered? ==>
                  && outcome == Answered(c.id)
                  && after.responses == s.responses + [Response(c.id, c.org, answer.text)]
                  && Committed(s, c, after, Request(c.org, c.key, c.prepared.fingerprint, Completed, None, Some(c.finished)),
                               if |answer.text| < 8 then 1 else |answer.text| / 4))
  {}

  /** A call is refused exactly when it is admitted and the answer that counts is no valid draft: the request is committed as
      failed, without a response and without tokens. */
  lemma RefusedIff(s: State, c: Call, answer: Answer)
    requires Legal(s, c) && Counts(c, answer)
    ensures var (after, outcome) := Apply(s, c);
            && (outcome.Refused? <==>
                  Admitted(s, c) && c.fault != BeforeProvider
                  && (answer.Draft? ==> !answer.valid && c.fault != AfterProvider))
            && (outcome.Refused? ==>
                  && after.responses == s.responses
                  && Committed(s, c, after, Request(c.org, c.key, c.prepared.fingerprint, outcome.status, Some(outcome.code),
                                                    Some(c.finished)), 0))
  {}

  /** The status and the public code of each answer that is no valid draft. */
  lemma RefusedAs(s: State, c: Call, answer: Answer)
    requires Legal(s, c) && Counts(c, answer) && Apply(s, c).1.Refused?
    ensures match answer
            case Draft(_, _) => Apply(s, c).1 == Refused(Invalid, "AI_INVALID_RESPONSE")
            case Unexpected => Apply(s, c).1 == Refused(Failed, "AI_PROVIDER_FAILED")
            case Error(code, _) =>
              && (code == Disabled ==> Apply(s, c).1 == Refused(ProviderDisabled, "AI_PROVIDER_DISABLED"))
              && (code == Timeout ==> Apply(s, c).1 == Refused(TimedOut, "AI_PROVIDER_TIMEOUT"))
              && (code == InvalidResponse ==> Apply(s, c).1 == Refused(Invalid, "AI_INVALID_RESPONSE"))
              && (code in {Retryable, ProviderFailed} ==> Apply(s, c).1 == Refused(Failed, "AI_PROVIDER_FAILED"))
  {}

  /** Every other answer changes nothing: rejected inputs, known keys, a full hour, and a process that stops. */
  lemma OtherwiseUnchanged(s: State, c: Call, answer: Answer)
    requires Legal(s, c) && Counts(c, answer)
    ensures var (after, outcome) := Apply(s, c);
            && (outcome.Rejected? <==> !c.prepared.Ready?) && (outcome.Rejected? ==> outcome.why == c.prepared)
            && (outcome.Interrupted? <==>
                  Admitted(s, c) && (c.fault == BeforeProvider || (answer.Draft? && (c.fault == AfterProvider
                                                                     || (answer.valid && c.fault == BeforeCommit)))))
            && (!outcome.Answered? && !outcome.Refused? ==> after == s)
  {}

  /** A new key is refused exactly when a hundred requests were committed in its window. */
  lemma LimitedIff(s: State, c: Call)
    requires Inv(s) && Legal(s, c) && c.prepared.Ready? && Existing(s.requests, c.org, c.key).None?
    ensures Apply(s, c).1.RateLimited? <==> CountIn(s.log, c.org, HourOf(c.now)) == MAX_REQUESTS_PER_HOUR
  {
    var used := UsageOf(s.usage, c.org, HourOf(c.now));
    assert used == Usage(CountIn(s.log, c.org, HourOf(c.now)), TokensIn(s.log, c.org, HourOf(c.now)));
  }

  /** Waiting the advertised seconds reaches the next window exactly when a whole number of seconds, or at most
      one second, was left of this one. */
  lemma RetryReachesNextHourIff(now: nat)
    ensures HourOf(now + RetryAfter(now) * MICROSECOND) > HourOf(now)
            <==> now % MICROSECOND == 0 || HOUR - now % HOUR <= MICROSECOND
    ensures HourOf(now + RetryAfter(now) * MICROSECOND) <= HourOf(now) + 1
  {
    var left := HOUR - now % HOUR;
    var wait := RetryAfter(now) * MICROSECOND;
    assert now == HOUR * HourOf(now) + now % HOUR;
    assert left % MICROSECOND == 0 <==> now % MICROSECOND == 0;
    assert wait == (if left < MICROSECOND then MICROSECOND else left - left % MICROSECOND);
    assert now + wait == HOUR * (HourOf(now) + 1) + (wait - left);
    if wait >= left {
      assert HourOf(now + wait) == HourOf(now) + 1;
    } else {
      assert HourOf(now + wait) == HourOf(now);
    }
  }

  /** Half a second into an hour the advised delay ends half a second before the next one. */
  lemma RetryCanFallShort()
    ensures RetryAfter(500000) == 3599 && HourOf(500000 + RetryAfter(500000) * MICROSECOND) == HourOf(500000)
  {
    assert HOUR == 3600000000 && HOUR - 500000 == 3599500000;
    assert 500000 + 3599 * MICROSECOND == 3599500000;
  }

  // ---- The service --------------------------------------------------------------------------------

  /** The open transaction: the request is there, still running, and already counted. */
  function Reserved(s: State, c: Call): State
    requires c.prepared.Ready?
  {
    var window := (c.org, HourOf(c.now));
    var used := UsageOf(s.usage, c.org, HourOf(c.now));
    s.(requests := s.requests[c.id := Request(c.org, c.key, c.prepared.fingerprint, Running, None, None)],
       usage := s.usage[window := used.(count := used.count + 1)])
  }

  /** Finishing the reservation gives the committed state. */
  lemma RefuseCommits(s: State, c: Call, status: Status, code: string)
    requires c.prepared.Ready?
    ensures var r := Reserved(s, c);
            Commit(s, c, status, Some(code), 0)
            == r.(requests := r.requests[c.id := r.requests[c.id].(status := status, errorCode := Some(code),
                                                                       finishedAt := Some(c.finished))],
                  log := r.log + [Charge(c.id, c.org, HourOf(c.now), 0)])
  {}

  lemma AcceptCommits(s: State, c: Call, text: string)
    requires c.prepared.Ready?
    ensures var r, window := Reserved(s, c), (c.org, HourOf(c.now));
            Commit(s, c, Completed, None, Tokens(text)).(responses := s.responses + [Response(c.id, c.org, text)])
            == State(r.requests[c.id := r.requests[c.id].(status := Completed, finishedAt := Some(c.finished))],
                     r.responses + [Response(c.id, c.org, text)],
                     r.usage[window := r.usage[window].(tokens := r.usage[window].tokens + Tokens(text))],
                     r.log + [Charge(c.id, c.org, HourOf(c.now), Tokens(text))])
  {}

  class AIRequest {
    const org: OrgId
    const key: Key
    const fingerprint: Fingerprint
    var status: Status
    var errorCode: Option<string>
    var finishedAt: Option<nat>

    constructor (org: OrgId, key: Key, fingerprint: Fingerprint)
      ensures Value() == Request(org, key, fingerprint, Running, None, None)
    {
      this.org := org;
      this.key := key;
      this.fingerprint := fingerprint;
      status := Running;
      errorCode := None;
      finishedAt := None;
    }

    function Value(): Request
      reads this
    {
      Request(org, key, fingerprint, status, errorCode, finishedAt)
    }

    method Fail(status: Status, errorCode: string, now: nat)
      modifies this
      ensures Value() == old(Value()).(status := status, errorCode := Some(errorCode), finishedAt := Some(now))
    {
      this.status := status;
      this.errorCode := Some(errorCode);
      finishedAt := Some(now);
    }

    method Complete(now: nat)
      modifies this
      ensures Value() == old(Value()).(status := Completed, finishedAt := Some(now))
    {
      status := Completed;
      finishedAt := Some(now);
    }
  }

  class AIService {
    var table: map<RequestId, AIRequest>
    var responses: seq<Response>
    var usage: Windows
    ghost var log: seq<Charge>

    constructor ()
      ensures Valid() && View() == EMPTY
    {
      table := map[];
      responses := [];
      usage := map[];
      log := [];
    }

    ghost predicate Valid()
      reads this
    {
      forall a, b :: a in table && b in table && a != b ==> table[a] != table[b]
    }

    function Rows(): Requests
      reads this, table.Values
    {
      map id | id in table :: table[id].Value()
    }

    ghost function View(): State
      reads this, table.Values
    {
      State(Rows(), responses, usage, log)
    }

    twostate lemma Inserted(id: RequestId, new row: AIRequest)
      requires table == old(table)[id := row]
      requires forall a :: a in old(table) ==> unchanged(old(table)[a])
      ensures Rows() == old(Rows())[id := row.Value()]
    {}

    twostate lemma Stored(id: RequestId)
      requires table == old(table) && id in table
      requires forall a :: a in table && a != id ==> unchanged(table[a])
      ensures Rows() == old(Rows())[id := table[id].Value()]
    {}

    twostate lemma Kept()
      requires table == old(table)
      requires forall a :: a in table ==> unchanged(table[a])
      ensures Rows() == old(Rows())
    {}

    method Generate(c: Call) returns (outcome: Outcome)
      requires Valid() && Inv(View()) && Legal(View(), c)
      modifies this
      ensures Valid() && fresh(table.Values - old(table.Values))
      ensures (View(), outcome) == Apply(old(View()), c)
    {
      if !c.prepared.Ready? { return Rejected(c.prepared); }
      var rows := Rows();
      if exists id :: id in rows && rows[id].org == c.org && rows[id].key == c.key {
        var id :| id in rows && rows[id].org == c.org && rows[id].key == c.key;
        ExistingIs(View(), id);
        return if rows[id].fingerprint != c.prepared.fingerprint then Conflict else Replayed(id);
      }
      if UsageOf(usage, c.org, HourOf(c.now)).count >= MAX_REQUESTS_PER_HOUR { return RateLimited(RetryAfter(c.now)); }
      outcome := Attempt(c);
    }

    /** Insert the request and charge it to its window, before anything is committed. */
    method Reserve(c: Call) returns (request: AIRequest)
      requires Valid() && c.id !in table && c.prepared.Ready?
      modifies this`table, this`usage
      ensures Valid() && fresh(request) && table == old(table)[c.id := request]
      ensures View() == Reserved(old(View()), c)
      ensures request.Value() == Request(c.org, c.key, c.prepared.fingerprint, Running, None, None)
    {
      request := new AIRequest(c.org, c.key, c.prepared.fingerprint);
      table := table[c.id := request];
      var used := UsageOf(usage, c.org, HourOf(c.now));
      usage := usage[(c.org, HourOf(c.now)) := used.(count := used.count + 1)];
      Inserted(c.id, request);
    }

    /** Commit the reserved request as failed. */
    method Refuse(c: Call, request: AIRequest, status: Status, code: string) returns (outcome: Outcome)
      requires Valid() && c.id in table && table[c.id] == request
      modifies request, this`log
      ensures Valid()
      ensures View() == old(View()).(requests := old(Rows())[c.id := old(request.Value()).(status := status,
                            errorCode := Some(code), finishedAt := Some(c.finished))],
                          log := old(log) + [Charge(c.id, c.org, HourOf(c.now), 0)])
      ensures outcome == Refused(status, code)
    {
      request.Fail(status, code, c.finished);
      log := log + [Charge(c.id, c.org, HourOf(c.now), 0)];
      Stored(c.id);
      return Refused(status, code);
    }

    /** Commit the reserved request with its response. */
    method Accept(c: Call, request: AIRequest, text: string) returns (outcome: Outcome)
      requires Valid() && c.id in table && table[c.id] == request && (c.org, HourOf(c.now)) in usage
      modifies request, this`log, this`usage, this`responses
      ensures Valid()
      ensures var window := (c.org, HourOf(c.now));
              View() == State(old(Rows())[c.id := old(request.Value()).(status := Completed, finishedAt := Some(c.finished))],
                          old(responses) + [Response(c.id, c.org, text)],
                          old(usage)[window := old(usage)[window].(tokens := old(usage)[window].tokens + Tokens(text))],
                          old(log) + [Charge(c.id, c.org, HourOf(c.now), Tokens(text))])
      ensures outcome == Answered(c.id)
    {
      var window := (c.org, HourOf(c.now));
      responses := responses + [Response(c.id, c.org, text)];
      usage := usage[window := usage[window].(tokens := usage[window].tokens + Tokens(text))];
      request.Complete(c.finished);
      log := log + [Charge(c.id, c.org, HourOf(c.now), Tokens(text))];
      Stored(c.id);
      return Answered(c.id);
    }

    /** After the provider: commit what its answer means, unless the process stops first. */
    method Settle(c: Call, request: AIRequest, answer: Answer, ghost s: State) returns (outcome: Outcome)
      requires Valid() && c.prepared.Ready? && View() == Reserved(s, c)
      requires c.id in table && table[c.id] == request && request.Value() == Rows()[c.id]
      modifies request, this`log, this`usage, this`responses
      ensures Valid() && outcome == Settled(s, c, answer).1
      ensures outcome.Interrupted? ==> View() == old(View()) && responses == old(responses) && log == old(log)
      ensures !outcome.Interrupted? ==> View() == Settled(s, c, answer).0
    {
      match answer {
        case Error(code, _) =>
          outcome := Refuse(c, request, FailureOf(code).0, FailureOf(code).1);
          RefuseCommits(s, c, FailureOf(code).0, FailureOf(code).1);
        case Unexpected =>
          outcome := Refuse(c, request, Failed, "AI_PROVIDER_FAILED");
          RefuseCommits(s, c, Failed, "AI_PROVIDER_FAILED");
        case Draft(text, valid) =>
          if c.fault.AfterProvider? || (valid && c.fault.BeforeCommit?) {
            outcome := Interrupted;
          } else if valid {
            outcome := Accept(c, request, text);
            AcceptCommits(s, c, text);
          } else {
            outcome := Refuse(c, request, Invalid, "AI_INVALID_RESPONSE");
            RefuseCommits(s, c, Invalid, "AI_INVALID_RESPONSE");
          }
      }
    }

    /** One transaction: a crash before the commit rolls the reservation back. */
    method Attempt(c: Call) returns (outcome: Outcome)
      requires Valid() && Legal(View(), c) && c.prepared.Ready?
      modifies this
      ensures Valid() && fresh(table.Values - old(table.Values))
      ensures (View(), outcome) == ApplyAttempt(old(View()), c)
    {
      var saved, savedUsage := table, usage;
      var request := Reserve(c);
      outcome := Interrupted;
      if !c.fault.BeforeProvider? {
        var answer, calls := InvokeProvider(c.enabled, c.answers);
        outcome := Settle(c, request, answer, old(View()));
      }
      if outcome.Interrupted? {
        table, usage := saved, savedUsage;
        Kept();
      }
    }
  }
}
