/** One finding's life (services/evaluations.py, models/finding.py): how a rule result, a suppression or its end changes it. */
module Findings {
  import opened Prelude
  import Results
  import Text

  type RuleKey = nat
  type AssetId = nat
  type UserId = nat

  /** A finding is identified by its rule and its asset; account-level rules have no asset. */
  datatype Target = Target(rule: RuleKey, asset: Option<AssetId>)

  datatype Status = Open | Resolved | Suppressed

  datatype Finding = Finding(
    status: Status,
    resolvedAt: Option<int>,
    suppressedAt: Option<int>,
    suppressedUntil: Option<int>,
    reason: Option<string>,
    suppressedBy: Option<UserId>,
    firstSeen: int,
    lastSeen: int,
    evidence: Results.Json,
    ruleVersion: nat,
    lastSequence: nat,
    version: nat)

  /** One rule result for one target, at the time it is applied. meanwhile is a finding of the target that somebody else
      stores between the lookup and the insertion, which then collides with it. */
  datatype Work = Work(target: Target, ruleVersion: nat, result: Results.RuleResult, now: int, meanwhile: Option<Finding>)

  datatype Effect = Created | Updated | Reopened | ResolvedIt | Untouched

  predicate ActivelySuppressed(f: Finding, now: int) {
    f.status.Suppressed? && (f.suppressedUntil.None? || f.suppressedUntil.value > now)
  }

  function NewFinding(w: Work, sequence: nat): Finding {
    Finding(Open, None, None, None, None, None, w.now, w.now,
            Results.Sanitize(w.result.evidence, 0), w.ruleVersion, sequence, 0)
  }

  function Unsuppressed(f: Finding): Finding {
    f.(status := Open, suppressedAt := None, suppressedUntil := None, reason := None, suppressedBy := None)
  }

  /** A failed result on a stored finding. */
  function Refailed(f: Finding, w: Work, sequence: nat): Finding {
    var kept := if ActivelySuppressed(f, w.now) then f else Unsuppressed(f);
    kept.(resolvedAt := None, lastSeen := w.now, evidence := Results.Sanitize(w.result.evidence, 0),
          ruleVersion := w.ruleVersion, lastSequence := sequence, version := f.version + 1)
  }

  function Repassed(f: Finding, w: Work, sequence: nat): Finding {
    Unsuppressed(f).(status := Resolved, resolvedAt := Some(w.now), lastSequence := sequence, version := f.version + 1)
  }

  predicate Stale(f: Option<Finding>, sequence: nat) {
    f.Some? && f.value.lastSequence > sequence
  }

  /** The finding an update works on: the one looked up, or the one an insertion collided with. */
  function Met(f: Option<Finding>, w: Work): Option<Finding> {
    if f.None? && w.result.status.Failed? then w.meanwhile else f
  }

  /** The finding one result leaves behind, given the one its lookup found. The re-read after a collision has no sequence check. */
  function Reconcile(f: Option<Finding>, w: Work, sequence: nat): Option<Finding> {
    if Stale(f, sequence) then f
    else match w.result.status
      case Failed => Some(if Met(f, w).None? then NewFinding(w, sequence) else Refailed(Met(f, w).value, w, sequence))
      case Passed =>
        if f.None? || ActivelySuppressed(f.value, w.now) || f.value.status.Resolved? then f
        else Some(Repassed(f.value, w, sequence))
      case _ => f
  }

  predicate Reopens(f: Finding, now: int) {
    f.status.Resolved? || (f.status.Suppressed? && !ActivelySuppressed(f, now))
  }

  function EffectOf(f: Option<Finding>, w: Work, sequence: nat): Effect {
    if Stale(f, sequence) then Untouched
    else match w.result.status
      case Failed =>
        if Met(f, w).None? then Created
        else if Reopens(Met(f, w).value, w.now) then Reopened
        else Updated
      case Passed =>
        if f.None? || ActivelySuppressed(f.value, w.now) || f.value.status.Resolved? then Untouched else ResolvedIt
      case _ => Untouched
  }

  /** Suppression until a time that is not in the future is refused. */
  function Suppress(f: Finding, actor: UserId, reason: string, until: Option<int>, now: int): Option<Finding> {
    if until.Some? && until.value <= now then None
    else Some(f.(status := Suppressed, resolvedAt := None, suppressedAt := Some(now), suppressedUntil := until,
                 reason := Some(Text.Strip(reason)), suppressedBy := Some(actor), version := f.version + 1))
  }

  function Unsuppress(f: Finding): Finding {
    if f.status.Suppressed? then Unsuppressed(f).(version := f.version + 1) else f
  }

  // ---- The lifecycle constraint ------------------------------------------------------------------

  /** The stored constraint on a finding's status and its timestamps. */
  predicate Lifecycle(f: Finding) {
    match f.status
    case Open => f.resolvedAt.None? && f.suppressedAt.None? && f.suppressedBy.None?
    case Resolved => f.resolvedAt.Some? && f.suppressedAt.None? && f.suppressedBy.None?
    case Suppressed =>
      && f.resolvedAt.None? && f.suppressedAt.Some? && f.suppressedBy.Some?
      && f.reason.Some? && f.reason.value != ""
  }

  predicate SeenInOrder(f: Finding) { f.firstSeen <= f.lastSeen }

  /** A suppression keeps the constraint exactly when its reason is not blank, which the request schema ensures. */
  lemma SuppressKeepsLifecycleIff(f: Finding, actor: UserId, reason: string, until: Option<int>, now: int)
    requires Suppress(f, actor, reason, until, now).Some?
    ensures Lifecycle(Suppress(f, actor, reason, until, now).value) <==> Text.Strip(reason) != ""
  {}

  predicate WellFormed(f: Finding, clock: int) {
    Lifecycle(f) && SeenInOrder(f) && f.lastSeen <= clock
  }

  /** What one result does to the finding it works on: constraints kept, version up by one on any change, first sight kept,
      and the sequence becomes the job's own. */
  lemma ReconcileKeeps(f: Option<Finding>, w: Work, sequence: nat)
    requires Met(f, w).Some? ==> WellFormed(Met(f, w).value, w.now)
    ensures var after, met := Reconcile(f, w, sequence), Met(f, w);
            && (met.Some? ==> after.Some?)
            && (after.Some? ==> WellFormed(after.value, w.now))
            && (met.Some? && after != met ==>
                  && after.value.version == met.value.version + 1
                  && after.value.lastSequence == sequence
                  && after.value.firstSeen == met.value.firstSeen)
            && (f.Some? && after != f ==> f.value.lastSequence <= sequence)
            && (EffectOf(f, w, sequence).Untouched? <==> after == f)
            && (EffectOf(f, w, sequence).Created? <==> met.None? && after.Some?)
  {}

  /** After a collision the finding ends up as if its first lookup had found it, exactly when no newer job stored it. */
  lemma CollisionIsGuardedIff(g: Finding, w: Work, sequence: nat)
    requires w.result.status.Failed? && w.meanwhile == Some(g)
    ensures Reconcile(None, w, sequence) == Reconcile(Some(g), w, sequence) <==> !Stale(Some(g), sequence)
  {}

  /** The status a result leaves, given the finding it works on, the result and the clock. */
  predicate StatusFollows(met: Option<Finding>, after: Option<Finding>, w: Work) {
    var shielded := met.Some? && ActivelySuppressed(met.value, w.now);
    && (w.result.status.Failed? ==> after.Some? && after.value.status == if shielded then Suppressed else Open)
    && (w.result.status.Passed? ==>
          if shielded then after == met else after.None? == met.None? && (after.Some? ==> after.value.status.Resolved?))
    && (w.result.status.Error? || w.result.status.NotApplicable? ==> after == met)
  }

  lemma StatusAfter(f: Option<Finding>, w: Work, sequence: nat)
    requires !Stale(f, sequence)
    ensures StatusFollows(Met(f, w), Reconcile(f, w, sequence), w)
  {}

  /** A finding stores the evidence of the failing result as it is: results are built sanitised. */
  lemma StoredEvidence(f: Option<Finding>, w: Work, sequence: nat, raw: Results.Json)
    requires w.result == Results.Make(Results.Failed, raw) && !Stale(f, sequence)
    ensures Reconcile(f, w, sequence).Some? && Reconcile(f, w, sequence).value.evidence == w.result.evidence
    ensures Results.Clean(w.result.evidence, 0)
  {
    Results.SanitizeIdempotent(raw, 0);
    Results.SanitizedIsClean(raw, 0);
  }

  // ---- The same result again ------------------------------------------------------------------------

  /**
   * Applying the same result again, later and not stale, only updates or does nothing, exactly when no
   * suppression that shielded the finding the first time has run out in between.
   */
  lemma RepeatIsQuietIff(f: Option<Finding>, w: Work, again: Work, sequence: nat, next: nat)
    requires !Stale(f, sequence) && sequence <= next
    requires again.result.status == w.result.status && w.now <= again.now
    ensures var once := Reconcile(f, w, sequence);
            var met := Met(f, w);
            var expired := met.Some? && ActivelySuppressed(met.value, w.now) && !ActivelySuppressed(met.value, again.now);
            var effect := EffectOf(once, again, next);
            (effect.Untouched? || effect.Updated?)
            <==> !(expired && (w.result.status.Failed? || w.result.status.Passed?))
  {}

  // ---- What each change writes ----------------------------------------------------------------------

  /** Suppressed for good, or until a time still to come. */
  predicate Shielded(f: Finding, now: int) {
    f.status == Suppressed && (f.suppressedUntil == None || now < f.suppressedUntil.value)
  }

  /** A failure writes the evidence, the time and the rule version; it opens the finding unless a suppression shields it. */
  lemma FailedAnswer(f: Option<Finding>, w: Work, sequence: nat)
    requires w.result.status == Results.Failed && (f.Some? ==> f.value.lastSequence <= sequence)
    ensures var evidence := Results.Sanitize(w.result.evidence, 0);
            var met := if f.None? then w.meanwhile else f;
            match met
            case None =>
              Reconcile(f, w, sequence)
              == Some(Finding(Open, None, None, None, None, None, w.now, w.now, evidence, w.ruleVersion, sequence, 0))
            case Some(g) =>
              Reconcile(f, w, sequence)
              == Some(if Shielded(g, w.now)
                      then g.(resolvedAt := None, lastSeen := w.now, evidence := evidence, ruleVersion := w.ruleVersion,
                              lastSequence := sequence, version := g.version + 1)
                      else Finding(Open, None, None, None, None, None, g.firstSeen, w.now, evidence, w.ruleVersion, sequence,
                                   g.version + 1))
  {}

  /** A pass resolves a stored finding that is neither resolved nor shielded, and writes nothing else about it. */
  lemma PassedAnswer(f: Option<Finding>, w: Work, sequence: nat)
    requires w.result.status == Results.Passed && (f.Some? ==> f.value.lastSequence <= sequence)
    ensures if f.Some? && f.value.status != Resolved && !Shielded(f.value, w.now)
            then var g := f.value;
                 Reconcile(f, w, sequence)
                 == Some(Finding(Resolved, Some(w.now), None, None, None, None, g.firstSeen, g.lastSeen, g.evidence,
                                 g.ruleVersion, sequence, g.version + 1))
            else Reconcile(f, w, sequence) == f
  {}

  /** Other results, and results of a job older than the stored finding, change nothing. */
  lemma OtherAnswer(f: Option<Finding>, w: Work, sequence: nat)
    requires w.result.status !in {Results.Failed, Results.Passed} || (f.Some? && f.value.lastSequence > sequence)
    ensures Reconcile(f, w, sequence) == f && EffectOf(f, w, sequence) == Untouched
  {}

  /** The counter a result raises, read off the finding before and after. */
  lemma EffectMeaning(f: Option<Finding>, w: Work, sequence: nat)
    ensures var before, after := Met(f, w), Reconcile(f, w, sequence);
            var effect := EffectOf(f, w, sequence);
            && (effect == Created <==> before.None? && after.Some?)
            && (effect == Reopened <==> before.Some? && before.value.status != Open && after.Some? && after.value.status == Open)
            && (effect == ResolvedIt <==> before.Some? && before.value.status != Resolved && after.Some? && after.value.status == Resolved)
            && (effect == Updated <==> before.Some? && after != before && after.Some? && after.value.status == before.value.status)
            && (effect == Untouched <==> after == before)
  {}

  /** A suppression is accepted exactly when it does not end by now, and ends what was resolved. */
  lemma SuppressAnswer(f: Finding, actor: UserId, reason: string, until: Option<int>, now: int)
    ensures Suppress(f, actor, reason, until, now)
            == if until == None || now < until.value
               then Some(Finding(Suppressed, None, Some(now), until, Some(Text.Strip(reason)), Some(actor), f.firstSeen, f.lastSeen,
                                 f.evidence, f.ruleVersion, f.lastSequence, f.version + 1))
               else None
  {}

  lemma UnsuppressAnswer(f: Finding)
    ensures Unsuppress(f)
            == if f.status == Suppressed
               then Finding(Open, f.resolvedAt, None, None, None, None, f.firstSeen, f.lastSeen, f.evidence, f.ruleVersion,
                            f.lastSequence, f.version + 1)
               else f
  {}
}
