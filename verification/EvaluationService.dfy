/** The rows and counters an evaluation run updates in place (services/evaluations.py). */
module EvaluationService {
  import opened Prelude
  import opened F = Findings
  import opened E = Evaluations
  import Results
  import Text

  class EvaluationJob {
    const sequence: nat
    var rulesEvaluated: nat
    var passedCount: nat
    var failedCount: nat
    var errorCount: nat
    var evaluationErrors: nat
    var notApplicableCount: nat
    var findingsCreated: nat
    var findingsUpdated: nat
    var findingsReopened: nat
    var findingsResolved: nat

    constructor (sequence: nat)
      ensures this.sequence == sequence && Valid() && Counted() == ZERO
    {
      this.sequence := sequence;
      rulesEvaluated, passedCount, failedCount, errorCount, evaluationErrors := 0, 0, 0, 0, 0;
      notApplicableCount, findingsCreated, findingsUpdated, findingsReopened, findingsResolved := 0, 0, 0, 0, 0;
    }

    predicate Valid()
      reads this
    {
      evaluationErrors == errorCount
    }

    function Counted(): Counts
      reads this
    {
      Counts(rulesEvaluated, passedCount, failedCount, errorCount, notApplicableCount,
             findingsCreated, findingsUpdated, findingsReopened, findingsResolved)
    }
  }

  class RuleSummary {
    var passedCount: nat
    var failedCount: nat
    var errorCount: nat
    var notApplicableCount: nat

    constructor ()
      ensures Counted() == Summary(0, 0, 0, 0)
    {
      passedCount, failedCount, errorCount, notApplicableCount := 0, 0, 0, 0;
    }

    function Counted(): Summary
      reads this
    {
      Summary(passedCount, failedCount, errorCount, notApplicableCount)
    }
  }

  class FindingRow {
    var status: Status
    var resolvedAt: Option<int>
    var suppressedAt: Option<int>
    var suppressedUntil: Option<int>
    var reason: Option<string>
    var suppressedBy: Option<UserId>
    var firstSeen: int
    var lastSeen: int
    var evidence: Results.Json
    var ruleVersion: nat
    var lastSequence: nat
    var version: nat

    constructor (w: Work, sequence: nat)
      ensures Value() == NewFinding(w, sequence)
    {
      status := Open;
      resolvedAt, suppressedAt, suppressedUntil, reason, suppressedBy := None, None, None, None, None;
      firstSeen, lastSeen := w.now, w.now;
      evidence := Results.Sanitize(w.result.evidence, 0);
      ruleVersion := w.ruleVersion;
      lastSequence := sequence;
      version := 0;
    }

    /** A row somebody else stored. */
    constructor Of(f: Finding)
      ensures Value() == f
    {
      status := f.status;
      resolvedAt, suppressedAt, suppressedUntil := f.resolvedAt, f.suppressedAt, f.suppressedUntil;
      reason, suppressedBy := f.reason, f.suppressedBy;
      firstSeen, lastSeen, evidence, ruleVersion := f.firstSeen, f.lastSeen, f.evidence, f.ruleVersion;
      lastSequence, version := f.lastSequence, f.version;
    }

    function Value(): Finding
      reads this
    {
      Finding(status, resolvedAt, suppressedAt, suppressedUntil, reason, suppressedBy, firstSeen, lastSeen,
              evidence, ruleVersion, lastSequence, version)
    }

    method ClearSuppression()
      modifies this
      ensures Value() == Unsuppressed(old(Value()))
    {
      status := Open;
      suppressedAt := None;
      suppressedUntil := None;
      reason := None;
      suppressedBy := None;
    }

    method Refail(w: Work, sequence: nat) returns (reopened: bool)
      modifies this
      ensures Value() == Refailed(old(Value()), w, sequence)
      ensures reopened <==> Reopens(old(Value()), w.now)
    {
      var wasResolved := status.Resolved?;
      var wasSuppressed := status.Suppressed?;
      var active := ActivelySuppressed(Value(), w.now);
      if !active {
        ClearSuppression();
      }
      resolvedAt := None;
      lastSeen := w.now;
      evidence := Results.Sanitize(w.result.evidence, 0);
      ruleVersion := w.ruleVersion;
      lastSequence := sequence;
      version := version + 1;
      reopened := wasResolved || (wasSuppressed && !active);
    }

    method MarkSuppressed(actor: UserId, reason: string, until: Option<int>, now: int)
      requires until.Some? ==> until.value > now
      modifies this
      ensures Some(Value()) == Suppress(old(Value()), actor, reason, until, now)
    {
      status := Suppressed;
      resolvedAt := None;
      suppressedAt := Some(now);
      suppressedUntil := until;
      this.reason := Some(Text.Strip(reason));
      suppressedBy := Some(actor);
      version := version + 1;
    }

    method Resolve(w: Work, sequence: nat)
      modifies this
      ensures Value() == Repassed(old(Value()), w, sequence)
    {
      ClearSuppression();
      status := Resolved;
      resolvedAt := Some(w.now);
      lastSequence := sequence;
      version := version + 1;
    }
  }

  function CountInSummary(s: Summary, status: Results.Status): Summary {
    match status
    case Passed => s.(passed := s.passed + 1)
    case Failed => s.(failed := s.failed + 1)
    case Error => s.(errors := s.errors + 1)
    case NotApplicable => s.(notApplicable := s.notApplicable + 1)
  }

  /** allowed: the actor has the suppression capability in the finding's organization. */
  datatype Outcome = Done | Forbidden | NotFound | InvalidExpiry

  class Evaluation {
    var table: map<Target, FindingRow>

    constructor ()
      ensures Valid() && Rows() == map[]
    {
      table := map[];
    }

    ghost predicate Valid()
      reads this
    {
      forall a, b :: a in table && b in table && a != b ==> table[a] != table[b]
    }

    function Rows(): Table
      reads this, table.Values
    {
      map target | target in table :: table[target].Value()
    }

    twostate lemma Kept()
      requires table == old(table)
      requires forall a :: a in table ==> unchanged(table[a])
      ensures Rows() == old(Rows())
    {}

    twostate lemma Stored(target: Target)
      requires table == old(table) && target in table
      requires forall a :: a in table && a != target ==> unchanged(table[a])
      ensures Rows() == old(Rows())[target := table[target].Value()]
    {}

    twostate lemma Inserted(target: Target, new row: FindingRow)
      requires table == old(table)[target := row]
      requires forall a :: a in old(table) ==> unchanged(old(table)[a])
      ensures Rows() == old(Rows())[target := row.Value()]
    {}

    /** Suppressing a finding until a later time, or for good. */
    method SuppressFinding(target: Target, actor: UserId, reason: string, until: Option<int>, now: int, allowed: bool)
      returns (outcome: Outcome)
      requires Valid()
      modifies table.Values
      ensures Valid()
      ensures outcome == if !allowed then Forbidden else if target !in table then NotFound
                         else if Suppress(old(Rows())[target], actor, reason, until, now).None? then InvalidExpiry else Done
      ensures Rows() == if outcome.Done? then old(Rows())[target := Suppress(old(Rows())[target], actor, reason, until, now).value]
                        else old(Rows())
    {
      if !allowed { return Forbidden; }
      if target !in table { return NotFound; }
      if until.Some? && until.value <= now { return InvalidExpiry; }
      var finding := table[target];
      finding.MarkSuppressed(actor, reason, until, now);
      Stored(target);
      return Done;
    }

    method UnsuppressFinding(target: Target, allowed: bool) returns (outcome: Outcome)
      requires Valid()
      modifies table.Values
      ensures Valid() && outcome == if !allowed then Forbidden else if target !in table then NotFound else Done
      ensures Rows() == if outcome.Done? then old(Rows())[target := Unsuppress(old(Rows())[target])] else old(Rows())
    {
      if !allowed { return Forbidden; }
      if target !in table { return NotFound; }
      var finding := table[target];
      if finding.status.Suppressed? {
        finding.ClearSuppression();
        finding.version := finding.version + 1;
      }
      Stored(target);
      return Done;
    }

    /** Count one result in the job and in its rule's summary. */
    method Count(job: EvaluationJob, summary: RuleSummary, status: Results.Status)
      requires job.Valid()
      modifies job, summary
      ensures job.Valid() && job.Counted() == WithStatus(old(job.Counted()), status)
      ensures summary.Counted() == CountInSummary(old(summary.Counted()), status)
    {
      job.rulesEvaluated := job.rulesEvaluated + 1;
      match status {
        case Passed =>
          job.passedCount := job.passedCount + 1;
          summary.passedCount := summary.passedCount + 1;
        case Failed =>
          job.failedCount := job.failedCount + 1;
          summary.failedCount := summary.failedCount + 1;
        case Error =>
          job.errorCount := job.errorCount + 1;
          job.evaluationErrors := job.evaluationErrors + 1;
          summary.errorCount := summary.errorCount + 1;
        case NotApplicable =>
          job.notApplicableCount := job.notApplicableCount + 1;
          summary.notApplicableCount := summary.notApplicableCount + 1;
      }
    }

    /** The insertion collides: the row stored meanwhile is read again and updated like any other. */
    method Collide(w: Work, sequence: nat) returns (effect: Effect)
      requires Valid() && w.target !in table && w.result.status.Failed? && w.meanwhile.Some?
      modifies this
      ensures Valid() && fresh(table.Values - old(table.Values))
      ensures Rows() == old(Rows())[w.target := Refailed(w.meanwhile.value, w, sequence)]
      ensures effect == if Reopens(w.meanwhile.value, w.now) then Reopened else Updated
    {
      var other := new FindingRow.Of(w.meanwhile.value);
      table := table[w.target := other];
      var reopened := other.Refail(w, sequence);
      Inserted(w.target, other);
      return if reopened then Reopened else Updated;
    }

    /** Reconcile one finding with its result. */
    method ReconcileRow(w: Work, sequence: nat) returns (effect: Effect)
      requires Valid()
      modifies this, table.Values
      ensures Valid() && fresh(table.Values - old(table.Values))
      ensures Rows() == ApplyWork(old(Rows()), w, sequence)
      ensures effect == EffectOf(Lookup(old(Rows()), w.target), w, sequence)
    {
      if w.target in table && table[w.target].lastSequence > sequence { return Untouched; }
      if w.result.status.Failed? {
        if w.target !in table {
          var candidate := new FindingRow(w, sequence);
          if w.meanwhile.None? {
            table := table[w.target := candidate];
            Inserted(w.target, candidate);
            return Created;
          }
          effect := Collide(w, sequence);
          return;
        }
        var reopened := table[w.target].Refail(w, sequence);
        Stored(w.target);
        return if reopened then Reopened else Updated;
      }
      if w.result.status.Passed? && w.target in table {
        var finding := table[w.target];
        if ActivelySuppressed(finding.Value(), w.now) || finding.status.Resolved? { return Untouched; }
        finding.Resolve(w, sequence);
        Stored(w.target);
        return ResolvedIt;
      }
      return Untouched;
    }

    method ApplyResult(job: EvaluationJob, w: Work, summary: RuleSummary)
      requires Valid() && job.Valid()
      modifies this, table.Values, job, summary
      ensures Valid() && job.Valid() && fresh(table.Values - old(table.Values))
      ensures Rows() == ApplyWork(old(Rows()), w, job.sequence)
      ensures job.Counted() == Tally(old(job.Counted()), w.result.status,
                                     EffectOf(Lookup(old(Rows()), w.target), w, job.sequence))
      ensures summary.Counted() == CountInSummary(old(summary.Counted()), w.result.status)
    {
      Count(job, summary, w.result.status);
      Kept();
      var effect := ReconcileRow(w, job.sequence);
      label Reconciled:
      CountEffect(job, effect);
      Kept@Reconciled();
    }

    method CountEffect(job: EvaluationJob, effect: Effect)
      requires job.Valid()
      modifies job
      ensures job.Valid()
      ensures job.Counted() == WithEffect(old(job.Counted()), effect)
    {
      match effect {
        case Created => job.findingsCreated := job.findingsCreated + 1;
        case Updated => job.findingsUpdated := job.findingsUpdated + 1;
        case Reopened => job.findingsReopened := job.findingsReopened + 1;
        case ResolvedIt => job.findingsResolved := job.findingsResolved + 1;
        case Untouched =>
      }
    }

    /** The findings and the counters stand where this much work takes them. */
    ghost predicate Progress(job: EvaluationJob, before: Table, done: seq<Work>)
      reads this, table.Values, job
    {
      && Valid() && job.Valid()
      && Rows() == ApplyAll(before, done, job.sequence)
      && job.Counted() == CountAll(before, done, job.sequence)
    }

    method Advance(job: EvaluationJob, w: Work, summary: RuleSummary, ghost before: Table,
                   ghost done: seq<Work>, ghost own: seq<Work>)
      requires Progress(job, before, done) && summary.Counted() == SummaryOf(own)
      modifies this, table.Values, job, summary
      ensures Progress(job, before, done + [w]) && summary.Counted() == SummaryOf(own + [w])
      ensures fresh(table.Values - old(table.Values))
    {
      ApplyResult(job, w, summary);
      NextWork(before, done, w, job.sequence);
      assert (own + [w])[..|own|] == own;
    }

    /** The inner loop: one rule over its targets, after the work already done. */
    method RunRule(job: EvaluationJob, rule: Rule, assets: seq<Asset>, evaluate: Evaluator, clock: Clock,
                   start: nat, ghost before: Table, ghost done: seq<Work>)
      returns (summary: RuleSummary, sawError: bool)
      requires Progress(job, before, done)
      modifies this, table.Values, job
      ensures fresh(table.Values - old(table.Values)) && fresh(summary)
      ensures var own := RuleWork(rule, TargetsOf(rule, assets), evaluate, clock, start);
              Progress(job, before, done + own) && summary.Counted() == SummaryOf(own) && (sawError <==> AnyError(own))
    {
      summary := new RuleSummary();
      sawError := false;
      var targets := TargetsOf(rule, assets);
      ghost var own := RuleWork(rule, targets, evaluate, clock, start);
      WholeRule(done, own);
      for i := 0 to |targets|
        invariant fresh(table.Values - old(table.Values))
        invariant Progress(job, before, done + own[..i])
        invariant summary.Counted() == SummaryOf(own[..i])
        invariant sawError <==> AnyError(own[..i])
      {
        var w := WorkAt(rule, targets[i], evaluate, clock(start + i));
        Advance(job, w, summary, before, done + own[..i], own[..i]);
        if w.result.status.Error? {
          sawError := true;
        }
        AnyErrorNext(own[..i], w);
        NextInRule(rule, targets, evaluate, clock, start, done, i);
      }
    }

    /** One summary a rule, each counting that rule's own results. */
    static ghost predicate Summarised(summaries: seq<Summary>, rules: seq<Rule>, assets: seq<Asset>, evaluate: Evaluator,
                                      clock: Clock)
    {
      |summaries| <= |rules|
      && forall r :: 0 <= r < |summaries| ==> summaries[r] == SummaryOf(WorkOfRule(rules, r, assets, evaluate, clock))
    }

    static lemma OneMoreSummary(summaries: seq<Summary>, s: Summary, rules: seq<Rule>, assets: seq<Asset>,
                                evaluate: Evaluator, clock: Clock)
      requires Summarised(summaries, rules, assets, evaluate, clock) && |summaries| < |rules|
      requires s == SummaryOf(WorkOfRule(rules, |summaries|, assets, evaluate, clock))
      ensures Summarised(summaries + [s], rules, assets, evaluate, clock)
    {
      var longer := summaries + [s];
      forall r | 0 <= r < |longer| ensures longer[r] == SummaryOf(WorkOfRule(rules, r, assets, evaluate, clock)) {
        if r < |summaries| {
          assert longer[r] == summaries[r];
        }
      }
    }

    /** The whole run: rules in order, each over its targets, then the terminal status. */
    method Run(job: EvaluationJob, rules: seq<Rule>, assets: seq<Asset>, evaluate: Evaluator, clock: Clock)
      returns (status: JobStatus, summaries: seq<Summary>)
      requires Valid() && job.Valid() && job.Counted() == ZERO
      modifies this, table.Values, job
      ensures fresh(table.Values - old(table.Values))
      ensures var work := AllWork(rules, assets, evaluate, clock);
              Progress(job, old(Rows()), work) && status == Terminal(job.Counted(), AnyError(work))
      ensures |summaries| == |rules| && Summarised(summaries, rules, assets, evaluate, clock)
    {
      summaries := [];
      var errors := false;
      ghost var before := Rows();
      ghost var done: seq<Work> := [];
      for r := 0 to |rules|
        invariant fresh(table.Values - old(table.Values))
        invariant done == AllWork(rules[..r], assets, evaluate, clock)
        invariant Progress(job, before, done) && job.rulesEvaluated == |done|
        invariant |summaries| == r && Summarised(summaries, rules, assets, evaluate, clock)
        invariant errors <==> AnyError(done)
      {
        ghost var own := WorkOfRule(rules, r, assets, evaluate, clock);
        NextRule(rules, r, assets, evaluate, clock);
        var summary, sawError := RunRule(job, rules[r], assets, evaluate, clock, job.rulesEvaluated, before, done);
        errors := errors || sawError;
        OneMoreSummary(summaries, summary.Counted(), rules, assets, evaluate, clock);
        summaries := summaries + [summary.Counted()];
        AnyErrorConcat(done, own);
        done := done + own;
        StatusCounters(before, done, job.sequence);
      }
      assert rules[..|rules|] == rules;
      status := if job.rulesEvaluated > 0 && job.evaluationErrors == job.rulesEvaluated then JobFailed
                else if errors then PartiallyCompleted
                else Completed;
    }
  }

  lemma NextWork(before: Table, work: seq<Work>, w: Work, sequence: nat)
    ensures ApplyAll(before, work + [w], sequence) == ApplyWork(ApplyAll(before, work, sequence), w, sequence)
    ensures CountAll(before, work + [w], sequence)
            == Tally(CountAll(before, work, sequence), w.result.status,
                     EffectOf(Lookup(ApplyAll(before, work, sequence), w.target), w, sequence))
  {
    assert (work + [w])[..|work|] == work;
  }
}
