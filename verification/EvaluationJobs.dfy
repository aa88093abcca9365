/** Evaluation jobs, suppressions and their ends taking turns on one account's findings (services/evaluations.py). */
module EvaluationJobs {
  import opened Prelude
  import opened F = Findings
  import opened E = Evaluations
  import Results
  import Text

  /** last is the largest sequence ever given to a job of the account; active holds the running jobs' sequences. */
  datatype State = State(table: Table, last: nat, active: set<nat>, clock: int)

  const EMPTY := State(map[], 0, {}, 0)

  datatype Event =
    | Start
    | Evaluate(w: Work, sequence: nat)
    | Finish(sequence: nat)
    | SuppressFinding(target: Target, actor: UserId, reason: string, until: Option<int>, now: int)
    | UnsuppressFinding(target: Target, now: int)

  /** The clock does not run backwards, only running jobs apply results, and reasons are not blank. What an insertion collides
      with is any well-formed finding of a job started so far. */
  predicate Legal(s: State, e: Event) {
    match e
    case Evaluate(w, sequence) =>
      sequence in s.active && s.clock <= w.now && (w.meanwhile.Some? ==> FindingOk(w.meanwhile.value, s.last, w.now))
    case SuppressFinding(_, _, reason, _, now) => s.clock <= now && Text.Strip(reason) != ""
    case UnsuppressFinding(_, now) => s.clock <= now
    case _ => true
  }

  /** A job starts only when none of the account is running. */
  function Step(s: State, e: Event): State {
    match e
    case Start => if s.active != {} then s else s.(last := s.last + 1, active := {s.last + 1})
    case Evaluate(w, sequence) => s.(table := ApplyWork(s.table, w, sequence), clock := w.now)
    case Finish(sequence) => s.(active := s.active - {sequence})
    case SuppressFinding(target, actor, reason, until, now) =>
      if target !in s.table then s.(clock := now)
      else
        (match Suppress(s.table[target], actor, reason, until, now)
         case None => s.(clock := now)
         case Some(f) => s.(table := s.table[target := f], clock := now))
    case UnsuppressFinding(target, now) =>
      if target !in s.table then s.(clock := now)
      else s.(table := s.table[target := Unsuppress(s.table[target])], clock := now)
  }

  /** A job starts only when none runs, with the next sequence; only finishing ends one. */
  lemma JobAnswer(s: State, e: Event)
    ensures var after := Step(s, e);
            && after.last == (if e.Start? && s.active == {} then s.last + 1 else s.last)
            && after.active == (if e.Start? && s.active == {} then {s.last + 1}
                                else if e.Finish? then s.active - {e.sequence} else s.active)
            && (e.Start? || e.Finish? ==> after.table == s.table && after.clock == s.clock)
  {}

  /** What a suppression, its end and a result store under each target. */
  lemma TableAnswer(s: State, e: Event, target: Target)
    ensures var before, after := Lookup(s.table, target), Lookup(Step(s, e).table, target);
            match e
            case Evaluate(w, sequence) => after == if w.target == target then Reconcile(before, w, sequence) else before
            case SuppressFinding(suppressed, actor, reason, until, now) =>
              after == if suppressed == target && before.Some? && (until == None || until.value > now)
                       then Suppress(before.value, actor, reason, until, now) else before
            case UnsuppressFinding(reopened, _) =>
              after == if reopened == target && before.Some? then Some(Unsuppress(before.value)) else before
            case _ => after == before
  {
    if e.Evaluate? {
      ReconcileNone(Lookup(s.table, e.w.target), e.w, e.sequence);
    }
  }

  lemma ReconcileNone(f: Option<Finding>, w: Work, sequence: nat)
    ensures Reconcile(f, w, sequence).None? ==> f.None?
  {}

  predicate FindingOk(f: Finding, last: nat, clock: int) {
    WellFormed(f, clock) && f.lastSequence <= last
  }

  ghost predicate Inv(s: State) {
    && (forall a :: a in s.active ==> a == s.last)
    && (forall target :: target in s.table ==> FindingOk(s.table[target], s.last, s.clock))
  }

  /** The finding of a target that a step works on: the stored one, or the one its insertion collides with. */
  function Found(s: State, e: Event, target: Target): Option<Finding> {
    if e.Evaluate? && e.w.target == target then Met(Lookup(s.table, target), e.w) else Lookup(s.table, target)
  }

  lemma StepKeepsInv(s: State, e: Event)
    requires Inv(s) && Legal(s, e)
    ensures Inv(Step(s, e))
  {
    if e.Evaluate? {
      ReconcileKeeps(Lookup(s.table, e.w.target), e.w, e.sequence);
    } else if e.SuppressFinding? && e.target in s.table && Suppress(s.table[e.target], e.actor, e.reason, e.until, e.now).Some? {
      SuppressKeepsLifecycleIff(s.table[e.target], e.actor, e.reason, e.until, e.now);
    }
  }

  /** With one running job per account the sequence check missing after a collision would never have refused: the finding
      ends up as if the first lookup had found it. */
  lemma CollisionIsGuarded(s: State, e: Event)
    requires Inv(s) && Legal(s, e)
    requires e.Evaluate? && e.w.target !in s.table && e.w.result.status.Failed? && e.w.meanwhile.Some?
    ensures Step(s, e) == Step(s.(table := s.table[e.w.target := e.w.meanwhile.value]), e)
  {
    CollisionIsGuardedIff(e.w.meanwhile.value, e.w, e.sequence);
  }

  /** A finding's history: its version rises by one with every change and its sequence never falls. */
  predicate Follows(before: Finding, after: Finding) {
    && before.lastSequence <= after.lastSequence
    && before.firstSeen == after.firstSeen
    && (after == before || after.version > before.version)
  }

  lemma StepFollows(s: State, e: Event, target: Target)
    requires Inv(s) && Legal(s, e) && Found(s, e, target).Some?
    ensures target in Step(s, e).table
    ensures var before, after := Found(s, e, target).value, Step(s, e).table[target];
            Follows(before, after) && (after != before ==> after.version == before.version + 1)
  {
    if e.Evaluate? {
      ReconcileKeeps(Lookup(s.table, e.w.target), e.w, e.sequence);
    }
  }

  ghost predicate LegalRun(s: State, events: seq<Event>)
    decreases |events|
  {
    events == [] || (Legal(s, events[0]) && LegalRun(Step(s, events[0]), events[1..]))
  }

  function Run(s: State, events: seq<Event>): State
    decreases |events|
  {
    if events == [] then s else Run(Step(s, events[0]), events[1..])
  }

  /**
   * Over every run, every stored finding meets the lifecycle constraint and was first seen no later than
   * last seen; its version rises strictly with every change and its evaluation sequence never falls. That
   * holds of a finding an insertion collides with as well, from the collision on.
   */
  lemma {:induction false} RunKeepsFindings(s: State, events: seq<Event>, target: Target)
    requires Inv(s) && LegalRun(s, events)
    ensures Inv(Run(s, events))
    ensures target in s.table ==> target in Run(s, events).table && Follows(s.table[target], Run(s, events).table[target])
    ensures events != [] && Found(s, events[0], target).Some? ==>
              target in Run(s, events).table && Follows(Found(s, events[0], target).value, Run(s, events).table[target])
    decreases |events|
  {
    if events != [] {
      StepKeepsInv(s, events[0]);
      if Found(s, events[0], target).Some? {
        StepFollows(s, events[0], target);
      }
      RunKeepsFindings(Step(s, events[0]), events[1..], target);
    }
  }

  // ---- Without the one-job rule -------------------------------------------------------------------

  /** A step lowers the sequence of the finding it works on exactly when its insertion collides with a newer job's finding. */
  lemma StepLowersSequenceIff(s: State, e: Event, target: Target)
    requires Found(s, e, target).Some?
    ensures target in Step(s, e).table
    ensures Step(s, e).table[target].lastSequence < Found(s, e, target).value.lastSequence
            <==> e.Evaluate? && e.w.target == target && target !in s.table && e.sequence < e.w.meanwhile.value.lastSequence
  {}

  /** Two running jobs would do it, in a state no run reaches: job 1 re-reads and rewrites what job 2 inserted. */
  lemma TwoJobsLowerSequence()
    ensures exists s: State, e, target :: !Inv(s) && s.active == {1, 2} && Legal(s, e) && Found(s, e, target).Some?
              && target in Step(s, e).table
              && Step(s, e).table[target].lastSequence < Found(s, e, target).value.lastSequence
  {
    var target := Target(1, None);
    var other := Work(target, 1, Results.Make(Results.Failed, Results.Dict([])), 5, None);
    var w := other.(meanwhile := Some(NewFinding(other, 2)));
    var s := State(map[], 2, {1, 2}, 5);
    var e := Evaluate(w, 1);
    StepLowersSequenceIff(s, e, target);
    assert 1 in s.active && Legal(s, e) && Found(s, e, target).Some?;
  }

  // ---- A whole evaluation as events ---------------------------------------------------------------

  function EvaluateAll(work: seq<Work>, sequence: nat): seq<Event> {
    seq(|work|, i requires 0 <= i < |work| => Evaluate(work[i], sequence))
  }

  /** Work applied one result after the other, from a given time on. */
  ghost predicate Timely(work: seq<Work>, clock: int, last: nat) {
    && (forall i :: 0 <= i < |work| ==> clock <= work[i].now)
    && (forall i, j :: 0 <= i < j < |work| ==> work[i].now <= work[j].now)
    && (forall i :: 0 <= i < |work| && work[i].meanwhile.Some? ==> FindingOk(work[i].meanwhile.value, last, work[i].now))
  }

  lemma {:induction false} Snoc(s: State, events: seq<Event>, e: Event)
    ensures Run(s, events + [e]) == Step(Run(s, events), e)
    ensures LegalRun(s, events + [e]) <==> LegalRun(s, events) && Legal(Run(s, events), e)
    decreases |events|
  {
    if events == [] {
      assert [] + [e] == [e] && [e][1..] == [];
    } else {
      assert (events + [e])[1..] == events[1..] + [e];
      Snoc(Step(s, events[0]), events[1..], e);
    }
  }

  /** The table an evaluation leaves is the one its results leave as events of a run. */
  lemma {:induction false} EvaluationIsRun(s: State, work: seq<Work>, sequence: nat)
    requires sequence in s.active && Timely(work, s.clock, s.last)
    ensures LegalRun(s, EvaluateAll(work, sequence))
    ensures var after := Run(s, EvaluateAll(work, sequence));
            && after.table == ApplyAll(s.table, work, sequence) && after.last == s.last && after.active == s.active
            && after.clock == if work == [] then s.clock else work[|work| - 1].now
  {
    if work != [] {
      var init, last := work[..|work| - 1], work[|work| - 1];
      EvaluationIsRun(s, init, sequence);
      assert EvaluateAll(work, sequence) == EvaluateAll(init, sequence) + [Evaluate(last, sequence)];
      Snoc(s, EvaluateAll(init, sequence), Evaluate(last, sequence));
    }
  }

  /** So a whole evaluation of a running job keeps every finding in order. */
  lemma EvaluationKeepsFindings(s: State, work: seq<Work>, sequence: nat, target: Target)
    requires Inv(s) && sequence in s.active && Timely(work, s.clock, s.last)
    ensures var after := ApplyAll(s.table, work, sequence);
            && (target in after ==> FindingOk(after[target], s.last, if work == [] then s.clock else work[|work| - 1].now))
            && (target in s.table ==> target in after && Follows(s.table[target], after[target]))
  {
    EvaluationIsRun(s, work, sequence);
    RunKeepsFindings(s, EvaluateAll(work, sequence), target);
  }
}
