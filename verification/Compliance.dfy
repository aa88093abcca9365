/** Control status of a compliance assessment (services/compliance.py). */
module Compliance {
  import opened Prelude

  type RuleKey = string
  type ControlId = nat

  datatype Status = Pass | Fail | NotAssessed | Error
  datatype FindingStatus = Open | Resolved | Suppressed
  datatype Finding = Finding(rule: RuleKey, version: int, status: FindingStatus)
  /** Versions from minimum up to maximum, if there is one. */
  datatype Mapping = Mapping(control: ControlId, rule: RuleKey, minimum: int, maximum: Option<int>)
  datatype RuleResult = RuleResult(rule: RuleKey, version: int, passed: nat, failed: nat, errors: nat, notApplicable: nat)

  datatype JobStatus = Queued | Running | Completed | PartiallyCompleted | JobFailed
  datatype Job = Job(status: JobStatus, errorCount: nat, evaluationErrors: nat)

  /** What the evaluation an assessment is based on is worth. */
  function SourceState(job: Option<Job>): Status {
    if job.None? then NotAssessed
    else if job.value.status.Completed? && job.value.errorCount == 0 && job.value.evaluationErrors == 0 then Pass
    else if job.value.status in {Completed, PartiallyCompleted, JobFailed}
            && (job.value.errorCount > 0 || job.value.evaluationErrors > 0) then Error
    else NotAssessed
  }

  predicate Covers(m: Mapping, rule: RuleKey, version: int) {
    m.rule == rule && m.minimum <= version && (m.maximum.None? || version <= m.maximum.value)
  }

  /** Some mapping of the control covers this rule version. */
  predicate InScope(mappings: seq<Mapping>, rule: RuleKey, version: int) {
    exists i :: 0 <= i < |mappings| && Covers(mappings[i], rule, version)
  }

  predicate Mapped(mappings: seq<Mapping>, rule: RuleKey) {
    exists i :: 0 <= i < |mappings| && mappings[i].rule == rule
  }

  function RelevantFindings(findings: seq<Finding>, mappings: seq<Mapping>): seq<Finding> {
    if findings == [] then []
    else
      var last := findings[|findings| - 1];
      RelevantFindings(findings[..|findings| - 1], mappings) + if InScope(mappings, last.rule, last.version) then [last] else []
  }

  predicate Active(f: Finding) { f.status in {Open, Suppressed} }

  predicate Relevant(mappings: seq<Mapping>, r: RuleResult) { InScope(mappings, r.rule, r.version) }

  // ---- What the status means ----------------------------------------------------------------------

  /** Every mapped rule has a result in scope. */
  ghost predicate AllAssessed(mappings: seq<Mapping>, results: set<RuleResult>) {
    forall i :: 0 <= i < |mappings| ==> Assessed(mappings, results, mappings[i].rule)
  }

  ghost predicate Assessed(mappings: seq<Mapping>, results: set<RuleResult>, rule: RuleKey) {
    exists r :: r in results && r.rule == rule && Relevant(mappings, r)
  }

  /** The status as a statement about sets: no order and no multiplicity of anything enters. */
  ghost function Meaning(mappings: seq<Mapping>, findings: set<Finding>, source: Status, results: set<RuleResult>): Status {
    if mappings == [] then NotAssessed
    else if exists f :: f in findings && Active(f) && InScope(mappings, f.rule, f.version) then Fail
    else if source != Pass then source
    else if !AllAssessed(mappings, results) then NotAssessed
    else if exists r :: r in results && Relevant(mappings, r) && (r.errors > 0 || r.failed > 0) then Error
    else if exists r :: r in results && Relevant(mappings, r) && r.passed + r.failed + r.notApplicable == 0 then NotAssessed
    else if forall r :: r in results && Relevant(mappings, r) ==> r.passed == 0 then NotAssessed
    else Pass
  }

  function Elements<T>(s: seq<T>): set<T> { set x | x in s }

  lemma {:induction false} RelevantMembers(findings: seq<Finding>, mappings: seq<Mapping>, f: Finding)
    ensures f in RelevantFindings(findings, mappings) <==> f in findings && InScope(mappings, f.rule, f.version)
  {
    if findings != [] {
      var init, last := findings[..|findings| - 1], findings[|findings| - 1];
      RelevantMembers(init, mappings, f);
      assert findings == init + [last];
    }
  }

  /** The results of one rule inside the ranges mapped for it. */
  method MatchesOf(mappings: seq<Mapping>, results: seq<RuleResult>, rule: RuleKey) returns (matches: seq<RuleResult>)
    ensures forall r :: r in matches <==> r in results && r.rule == rule && Relevant(mappings, r)
  {
    var ranges := [];
    for i := 0 to |mappings|
      invariant forall m :: m in ranges <==> m in mappings[..i] && m.rule == rule
    {
      if mappings[i].rule == rule { ranges := ranges + [mappings[i]]; }
      assert mappings[..i + 1] == mappings[..i] + [mappings[i]];
    }
    assert mappings[..|mappings|] == mappings;
    RangesSuffice(mappings, ranges, rule);
    matches := [];
    for i := 0 to |results|
      invariant forall r :: r in matches <==> r in results[..i] && r.rule == rule && Relevant(mappings, r)
    {
      if results[i].rule == rule && InScope(ranges, results[i].rule, results[i].version) { matches := matches + [results[i]]; }
      assert results[..i + 1] == results[..i] + [results[i]];
    }
    assert results[..|results|] == results;
  }

  lemma RangesSuffice(mappings: seq<Mapping>, ranges: seq<Mapping>, rule: RuleKey)
    requires forall m :: m in ranges <==> m in mappings && m.rule == rule
    ensures forall version :: InScope(ranges, rule, version) <==> InScope(mappings, rule, version)
  {
    forall version ensures InScope(ranges, rule, version) <==> InScope(mappings, rule, version) {
      if InScope(ranges, rule, version) {
        var i :| 0 <= i < |ranges| && Covers(ranges[i], rule, version);
        assert ranges[i] in mappings;
        var j :| 0 <= j < |mappings| && mappings[j] == ranges[i];
      }
      if InScope(mappings, rule, version) {
        var i :| 0 <= i < |mappings| && Covers(mappings[i], rule, version);
        assert mappings[i] in ranges;
        var j :| 0 <= j < |ranges| && ranges[j] == mappings[i];
      }
    }
  }

  /** Union the results of all mapped rules, in any order of the rules; None when a rule has no result. */
  method MatchedResults(mappings: seq<Mapping>, results: seq<RuleResult>) returns (matched: Option<seq<RuleResult>>)
    ensures matched.Some? <==> AllAssessed(mappings, Elements(results))
    ensures matched.Some? ==> forall r :: r in matched.value <==> r in results && Relevant(mappings, r)
  {
    var found := [];
    var keys := set m | m in mappings :: m.rule;
    ghost var seen := {};
    while keys != {}
      invariant seen + keys == (set m | m in mappings :: m.rule)
      invariant forall r :: r in found <==> r in results && r.rule in seen && Relevant(mappings, r)
      invariant forall rule :: rule in seen ==> Assessed(mappings, Elements(results), rule)
    {
      var rule :| rule in keys;
      var matches := MatchesOf(mappings, results, rule);
      if matches == [] {
        assert !Assessed(mappings, Elements(results), rule);
        return None;
      }
      assert matches[0] in Elements(results);
      ghost var before := found;
      for i := 0 to |matches|
        invariant forall r :: r in found <==> r in before || r in matches[..i]
      {
        if matches[i] !in found { found := found + [matches[i]]; }
        assert matches[..i + 1] == matches[..i] + [matches[i]];
      }
      assert matches[..|matches|] == matches;
      keys, seen := keys - {rule}, seen + {rule};
    }
    assert forall i :: 0 <= i < |mappings| ==> mappings[i] in mappings && mappings[i].rule in seen;
    return Some(found);
  }

  /** _control_status, called with the relevant findings. */
  method ControlStatus(mappings: seq<Mapping>, findings: seq<Finding>, source: Status, results: seq<RuleResult>)
    returns (status: Status)
    requires forall f :: f in findings ==> InScope(mappings, f.rule, f.version)
    ensures status == Meaning(mappings, Elements(findings), source, Elements(results))
  {
    if mappings == [] { return NotAssessed; }
    if exists f :: f in findings && Active(f) {
      assert exists f :: f in Elements(findings) && Active(f) && InScope(mappings, f.rule, f.version);
      return Fail;
    }
    if source != Pass { return source; }
    var matched := MatchedResults(mappings, results);
    if matched.None? { return NotAssessed; }
    var found := matched.value;
    assert forall r :: r in found <==> r in Elements(results) && Relevant(mappings, r);
    if exists r :: r in found && r.errors > 0 { return Error; }
    if exists r :: r in found && r.failed > 0 { return Error; }
    if exists r :: r in found && r.passed + r.failed + r.notApplicable == 0 { return NotAssessed; }
    if forall r :: r in found ==> r.passed == 0 { return NotAssessed; }
    return Pass;
  }

  /** Only the set of findings in scope matters, so filtering them first changes nothing. */
  lemma MeaningOfRelevant(mappings: seq<Mapping>, findings: seq<Finding>, source: Status, results: set<RuleResult>)
    ensures Meaning(mappings, Elements(RelevantFindings(findings, mappings)), source, results)
            == Meaning(mappings, Elements(findings), source, results)
  {
    forall f | true ensures f in RelevantFindings(findings, mappings) <==> f in findings && InScope(mappings, f.rule, f.version) {
      RelevantMembers(findings, mappings, f);
    }
  }

  // ---- Laws ---------------------------------------------------------------------------------------

  /** Both lists map the same rules and cover the same versions. */
  ghost predicate SameScope(a: seq<Mapping>, b: seq<Mapping>) {
    && (forall rule :: Mapped(a, rule) <==> Mapped(b, rule))
    && (forall rule, version :: InScope(a, rule, version) <==> InScope(b, rule, version))
  }

  /** The status depends on the mappings through their scope only. */
  lemma ScopeDecides(a: seq<Mapping>, b: seq<Mapping>, findings: set<Finding>, source: Status, results: set<RuleResult>)
    requires SameScope(a, b)
    ensures Meaning(a, findings, source, results) == Meaning(b, findings, source, results)
  {
    assert a != [] ==> Mapped(a, a[0].rule);
    assert b != [] ==> Mapped(b, b[0].rule);
    AssessedByScope(a, b, results);
    AssessedByScope(b, a, results);
    assert forall r :: Relevant(a, r) <==> Relevant(b, r);
  }

  lemma AssessedByScope(a: seq<Mapping>, b: seq<Mapping>, results: set<RuleResult>)
    requires SameScope(a, b)
    ensures AllAssessed(a, results) ==> AllAssessed(b, results)
  {
    forall i | 0 <= i < |b| && AllAssessed(a, results) ensures Assessed(b, results, b[i].rule) {
      assert Mapped(b, b[i].rule);
      assert Mapped(a, b[i].rule);
      var j :| 0 <= j < |a| && a[j].rule == b[i].rule;
      assert Assessed(a, results, a[j].rule);
      var r :| r in results && r.rule == b[i].rule && Relevant(a, r);
      assert Relevant(b, r);
    }
  }

  /** Reordering or repeating mappings, findings and results changes nothing. */
  lemma OrderAndRepetitionIrrelevant(a: seq<Mapping>, b: seq<Mapping>, f: seq<Finding>, g: seq<Finding>, source: Status,
                                     r: seq<RuleResult>, s: seq<RuleResult>)
    requires Elements(a) == Elements(b) && Elements(f) == Elements(g) && Elements(r) == Elements(s)
    ensures Meaning(a, Elements(f), source, Elements(r)) == Meaning(b, Elements(g), source, Elements(s))
  {
    SameElements(a, b);
    SameElements(b, a);
    ScopeDecides(a, b, Elements(f), source, Elements(r));
  }

  lemma SameElements(a: seq<Mapping>, b: seq<Mapping>)
    requires Elements(a) == Elements(b)
    ensures forall rule :: Mapped(a, rule) ==> Mapped(b, rule)
    ensures forall rule, version :: InScope(a, rule, version) ==> InScope(b, rule, version)
  {
    forall i | 0 <= i < |a| ensures exists j :: 0 <= j < |b| && b[j] == a[i] {
      assert a[i] in Elements(b);
    }
  }

  /** The two ranges belong to one rule and leave no version between them. */
  predicate Mergeable(m: Mapping, n: Mapping) {
    m.rule == n.rule && m.minimum <= n.minimum
    && (m.maximum.None? || (m.minimum <= m.maximum.value && n.minimum <= m.maximum.value + 1))
    && (n.maximum.None? || n.minimum <= n.maximum.value)
  }

  function Merge(m: Mapping, n: Mapping): Mapping {
    m.(maximum := if m.maximum.None? || n.maximum.None? then None
                  else if m.maximum.value >= n.maximum.value then m.maximum else n.maximum)
  }

  /** Merging two overlapping or adjacent ranges of a rule into one changes nothing. */
  lemma MergingIrrelevant(rest: seq<Mapping>, m: Mapping, n: Mapping, findings: set<Finding>, source: Status,
                          results: set<RuleResult>)
    requires Mergeable(m, n)
    ensures Meaning(rest + [m, n], findings, source, results) == Meaning(rest + [Merge(m, n)], findings, source, results)
  {
    var a, b := rest + [m, n], rest + [Merge(m, n)];
    forall rule ensures Mapped(a, rule) <==> Mapped(b, rule) {
      MappedAppend(rest, [m, n], rule);
      MappedAppend(rest, [Merge(m, n)], rule);
      assert [m, n][0].rule == rule <==> [Merge(m, n)][0].rule == rule;
    }
    forall rule, version ensures InScope(a, rule, version) <==> InScope(b, rule, version) {
      ScopeAppend(rest, [m, n], rule, version);
      ScopeAppend(rest, [Merge(m, n)], rule, version);
      assert Covers(Merge(m, n), rule, version) <==> Covers(m, rule, version) || Covers(n, rule, version);
      assert InScope([m, n], rule, version) <==> Covers([m, n][0], rule, version) || Covers([m, n][1], rule, version);
      assert InScope([Merge(m, n)], rule, version) <==> Covers([Merge(m, n)][0], rule, version);
    }
    ScopeDecides(a, b, findings, source, results);
  }

  lemma MappedAppend(a: seq<Mapping>, b: seq<Mapping>, rule: RuleKey)
    ensures Mapped(a + b, rule) <==> Mapped(a, rule) || Mapped(b, rule)
  {
    assert forall i :: 0 <= i < |b| ==> (a + b)[|a| + i] == b[i];
    assert forall i :: 0 <= i < |a| ==> (a + b)[i] == a[i];
  }

  lemma ScopeAppend(a: seq<Mapping>, b: seq<Mapping>, rule: RuleKey, version: int)
    ensures InScope(a + b, rule, version) <==> InScope(a, rule, version) || InScope(b, rule, version)
  {
    assert forall i :: 0 <= i < |b| ==> (a + b)[|a| + i] == b[i];
    assert forall i :: 0 <= i < |a| ==> (a + b)[i] == a[i];
  }

  predicate Clean(r: RuleResult) { r.errors == 0 && r.failed == 0 && r.passed + r.notApplicable > 0 }

  /** PASS: a sound evaluation, no active finding, clean results for every mapped rule, and something that passed. */
  lemma PassIff(mappings: seq<Mapping>, findings: set<Finding>, source: Status, results: set<RuleResult>)
    ensures Meaning(mappings, findings, source, results) == Pass <==>
              && mappings != [] && source == Pass
              && (forall f :: f in findings && InScope(mappings, f.rule, f.version) ==> !Active(f))
              && AllAssessed(mappings, results)
              && (forall r :: r in results && Relevant(mappings, r) ==> Clean(r))
              && (exists r :: r in results && Relevant(mappings, r) && r.passed > 0)
  {}

  /** FAIL: an active finding in scope, whatever the evaluation says. */
  lemma FailIff(mappings: seq<Mapping>, findings: set<Finding>, job: Option<Job>, results: set<RuleResult>)
    ensures Meaning(mappings, findings, SourceState(job), results) == Fail
            <==> exists f :: f in findings && Active(f) && InScope(mappings, f.rule, f.version)
  {}

  /** The evaluation finished and nothing in it went wrong. */
  predicate SoundJob(job: Option<Job>) {
    job.Some? && job.value.status == Completed && job.value.errorCount == 0 && job.value.evaluationErrors == 0
  }

  /** The evaluation finished, completely or not, and something in it went wrong. */
  predicate ErredJob(job: Option<Job>) {
    job.Some? && job.value.status in {Completed, PartiallyCompleted, JobFailed}
    && (job.value.errorCount > 0 || job.value.evaluationErrors > 0)
  }

  ghost predicate ActiveInScope(mappings: seq<Mapping>, findings: set<Finding>) {
    exists f :: f in findings && f.status in {Open, Suppressed} && InScope(mappings, f.rule, f.version)
  }

  /** Each status of a control, by the evaluation it rests on; NOT_ASSESSED is what remains. */
  lemma StatusIff(mappings: seq<Mapping>, findings: set<Finding>, job: Option<Job>, results: set<RuleResult>)
    ensures var status := Meaning(mappings, findings, SourceState(job), results);
            var active := ActiveInScope(mappings, findings);
            var judged := mappings != [] && !active && SoundJob(job) && AllAssessed(mappings, results);
            var bad := exists r :: r in results && Relevant(mappings, r) && (r.errors > 0 || r.failed > 0);
            && (status == Fail <==> active)
            && (status == Error <==> mappings != [] && !active && (ErredJob(job) || (judged && bad)))
            && (status == Pass <==>
                  judged && !bad
                  && (forall r :: r in results && Relevant(mappings, r) ==> r.passed > 0 || r.notApplicable > 0)
                  && (exists r :: r in results && Relevant(mappings, r) && r.passed > 0))
  {}

  lemma {:induction false} RelevantTimes(findings: seq<Finding>, mappings: seq<Mapping>, f: Finding)
    ensures multiset(RelevantFindings(findings, mappings))[f]
            == if InScope(mappings, f.rule, f.version) then multiset(findings)[f] else 0
  {
    if findings != [] {
      var init, last := findings[..|findings| - 1], findings[|findings| - 1];
      RelevantTimes(init, mappings, f);
      assert findings == init + [last];
    }
  }

  /** A finding is relevant as often as it is listed, if some range of its rule holds its version. */
  lemma RelevantCount(findings: seq<Finding>, mappings: seq<Mapping>, f: Finding)
    ensures multiset(RelevantFindings(findings, mappings))[f]
            == if exists m :: m in mappings && m.rule == f.rule && m.minimum <= f.version
                              && (m.maximum == None || f.version <= m.maximum.value)
               then multiset(findings)[f] else 0
  {
    RelevantTimes(findings, mappings, f);
  }

  // ---- One assessment -----------------------------------------------------------------------------

  function MappingsOf(mappings: seq<Mapping>, control: ControlId): seq<Mapping> {
    if mappings == [] then []
    else
      var last := mappings[|mappings| - 1];
      MappingsOf(mappings[..|mappings| - 1], control) + if last.control == control then [last] else []
  }

  lemma {:induction false} MappingsOfMembers(mappings: seq<Mapping>, control: ControlId, m: Mapping)
    ensures m in MappingsOf(mappings, control) <==> m in mappings && m.control == control
  {
    if mappings != [] {
      var init, last := mappings[..|mappings| - 1], mappings[|mappings| - 1];
      MappingsOfMembers(init, control, m);
      assert mappings == init + [last];
    }
  }

  method GroupMappings(controls: seq<ControlId>, mappings: seq<Mapping>) returns (grouped: map<ControlId, seq<Mapping>>)
    requires forall m :: m in mappings ==> m.control in controls
    ensures grouped.Keys == Elements(controls)
    ensures forall c :: c in controls ==> grouped[c] == MappingsOf(mappings, c)
  {
    grouped := map c | c in controls :: [];
    for i := 0 to |mappings|
      invariant grouped.Keys == Elements(controls)
      invariant forall c :: c in controls ==> grouped[c] == MappingsOf(mappings[..i], c)
    {
      assert mappings[..i + 1][..i] == mappings[..i];
      var c := mappings[i].control;
      assert mappings[i] in mappings;
      grouped := grouped[c := grouped[c] + [mappings[i]]];
    }
    assert mappings[..|mappings|] == mappings;
  }

  datatype ControlRow = ControlRow(control: ControlId, status: Status, findings: nat)
  datatype Totals = Totals(controls: nat, passed: nat, failed: nat, notAssessed: nat, errors: nat, findings: nat)

  function CountOf(rows: seq<ControlRow>, status: Status): nat {
    if rows == [] then 0 else CountOf(rows[..|rows| - 1], status) + if rows[|rows| - 1].status == status then 1 else 0
  }

  ghost function Places(rows: seq<ControlRow>, status: Status): set<int> {
    set i | 0 <= i < |rows| && rows[i].status == status
  }

  lemma OnePlace(places: set<int>, n: int)
    requires n !in places
    ensures |places + {n}| == |places| + 1
  {}

  /** A count of rows is the number of their places. */
  lemma {:induction false} CountIsNumber(rows: seq<ControlRow>, status: Status)
    ensures CountOf(rows, status) == |Places(rows, status)|
  {
    if rows == [] {
      assert Places(rows, status) == {};
    } else {
      var init, n := rows[..|rows| - 1], |rows| - 1;
      CountIsNumber(init, status);
      OnePlace(Places(init, status), n);
      assert Places(rows, status) == if rows[n].status == status then Places(init, status) + {n} else Places(init, status);
    }
  }

  /** The row an assessment stores for a control. */
  ghost function RowOf(control: ControlId, mappings: seq<Mapping>, findings: seq<Finding>, source: Status,
                       results: seq<RuleResult>): ControlRow
  {
    ControlRow(control, Meaning(mappings, Elements(findings), source, Elements(results)),
               |RelevantFindings(findings, mappings)|)
  }

  method AssessControl(control: ControlId, mappings: seq<Mapping>, findings: seq<Finding>, source: Status,
                       results: seq<RuleResult>) returns (row: ControlRow)
    ensures row == RowOf(control, mappings, findings, source, results)
  {
    var relevant := RelevantFindings(findings, mappings);
    forall f | f in relevant ensures InScope(mappings, f.rule, f.version) {
      RelevantMembers(findings, mappings, f);
    }
    var status := ControlStatus(mappings, relevant, source, results);
    MeaningOfRelevant(mappings, findings, source, Elements(results));
    return ControlRow(control, status, |relevant|);
  }

  /** One row for each control, in order. */
  ghost function AllRows(controls: seq<ControlId>, mappings: seq<Mapping>, findings: seq<Finding>, source: Status,
                         results: seq<RuleResult>): seq<ControlRow>
  {
    seq(|controls|, i requires 0 <= i < |controls| =>
      RowOf(controls[i], MappingsOf(mappings, controls[i]), findings, source, results))
  }

  lemma PrefixNext<T>(s: seq<T>, i: nat)
    requires i < |s|
    ensures s[..i + 1] == s[..i] + [s[i]]
  {}

  function Tally(t: Totals, status: Status): Totals {
    var counted := t.(controls := t.controls + 1);
    if status == Fail then counted.(failed := t.failed + 1)
    else if status == Pass then counted.(passed := t.passed + 1)
    else if status == Error then counted.(errors := t.errors + 1)
    else counted.(notAssessed := t.notAssessed + 1)
  }

  function TotalsOf(rows: seq<ControlRow>, findings: nat): Totals {
    Totals(|rows|, CountOf(rows, Pass), CountOf(rows, Fail), CountOf(rows, NotAssessed), CountOf(rows, Error), findings)
  }

  lemma TallyNext(rows: seq<ControlRow>, row: ControlRow, findings: nat)
    ensures Tally(TotalsOf(rows, findings), row.status) == TotalsOf(rows + [row], findings)
  {
    assert (rows + [row])[..|rows|] == rows;
  }

  lemma {:induction false} CountsAddUp(rows: seq<ControlRow>)
    ensures CountOf(rows, Pass) + CountOf(rows, Fail) + CountOf(rows, NotAssessed) + CountOf(rows, Error) == |rows|
  {
    if rows != [] {
      CountsAddUp(rows[..|rows| - 1]);
    }
  }

  /** The counting loop of assess. */
  method Assess(controls: seq<ControlId>, mappings: seq<Mapping>, findings: seq<Finding>, job: Option<Job>,
                results: seq<RuleResult>)
    returns (rows: seq<ControlRow>, totals: Totals)
    requires forall m :: m in mappings ==> m.control in controls
    ensures rows == AllRows(controls, mappings, findings, SourceState(job), results)
    ensures totals.passed == CountOf(rows, Pass) && totals.failed == CountOf(rows, Fail)
    ensures totals.notAssessed == CountOf(rows, NotAssessed) && totals.errors == CountOf(rows, Error)
    ensures totals.findings == |findings|
    ensures totals.passed + totals.failed + totals.notAssessed + totals.errors == totals.controls == |controls|
  {
    var grouped := GroupMappings(controls, mappings);
    totals := Totals(0, 0, 0, 0, 0, |findings|);
    rows := [];
    ghost var all := AllRows(controls, mappings, findings, SourceState(job), results);
    for i := 0 to |controls|
      invariant rows == all[..i]
      invariant totals == TotalsOf(rows, |findings|)
    {
      assert controls[i] in controls;
      var row := AssessControl(controls[i], grouped[controls[i]], findings, SourceState(job), results);
      totals := Tally(totals, row.status);
      TallyNext(rows, row, |findings|);
      PrefixNext(all, i);
      rows := rows + [row];
    }
    assert all[..|controls|] == all;
    CountsAddUp(rows);
  }
}
