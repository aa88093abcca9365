/**
 * Evaluation runs (services/evaluations.py): a nested loop over rules and assets reconciles findings
 * and counts results, while jobs, suppressions and their ends take turns.
 */
module Evaluations {
  import opened Prelude
  import opened F = Findings
  import Results

  type AssetType = nat
  datatype Asset = Asset(id: AssetId, kind: AssetType)
  /** A rule with no asset kinds is evaluated once for the whole account. */
  datatype Rule = Rule(key: RuleKey, version: nat, kinds: Option<set<AssetType>>)

  /** What evaluating a rule gives; None stands for an exception. */
  type Evaluator = (Rule, Option<Asset>) -> Option<Results.RuleResult>

  type Table = map<Target, Finding>

  /** The time at which a result is applied, and what somebody else stores under its target just then. */
  datatype Moment = Moment(now: int, meanwhile: Option<Finding>)
  type Clock = nat -> Moment

  function ResultOf(evaluate: Evaluator, rule: Rule, asset: Option<Asset>): Results.RuleResult {
    match evaluate(rule, asset)
    case Some(result) => result
    case None => Results.Make(Results.Error, Results.Dict([]))
  }

  // ---- The order of work ----------------------------------------------------------------------

  function Applicable(kinds: set<AssetType>, assets: seq<Asset>): seq<Option<Asset>> {
    if assets == [] then []
    else
      var last := assets[|assets| - 1];
      Applicable(kinds, assets[..|assets| - 1]) + if last.kind in kinds then [Some(last)] else []
  }

  function TargetsOf(rule: Rule, assets: seq<Asset>): seq<Option<Asset>> {
    match rule.kinds
    case None => [None]
    case Some(kinds) => Applicable(kinds, assets)
  }

  function IdOf(asset: Option<Asset>): Option<AssetId> {
    match asset case None => None case Some(a) => Some(a.id)
  }

  function WorkAt(rule: Rule, asset: Option<Asset>, evaluate: Evaluator, at: Moment): Work {
    Work(Target(rule.key, IdOf(asset)), rule.version, ResultOf(evaluate, rule, asset), at.now, at.meanwhile)
  }

  /** One rule's work; the k-th result of the whole run is applied at clock(k). */
  function RuleWork(rule: Rule, assets: seq<Option<Asset>>, evaluate: Evaluator, clock: Clock, start: nat): seq<Work> {
    seq(|assets|, i requires 0 <= i < |assets| => WorkAt(rule, assets[i], evaluate, clock(start + i)))
  }

  function AllWork(rules: seq<Rule>, assets: seq<Asset>, evaluate: Evaluator, clock: Clock): seq<Work> {
    if rules == [] then []
    else
      var done := AllWork(rules[..|rules| - 1], assets, evaluate, clock);
      var rule := rules[|rules| - 1];
      done + RuleWork(rule, TargetsOf(rule, assets), evaluate, clock, |done|)
  }

  /** The work of the r-th rule, which starts where the rules before it end. */
  function WorkOfRule(rules: seq<Rule>, r: nat, assets: seq<Asset>, evaluate: Evaluator, clock: Clock): seq<Work>
    requires r < |rules|
  {
    RuleWork(rules[r], TargetsOf(rules[r], assets), evaluate, clock, |AllWork(rules[..r], assets, evaluate, clock)|)
  }

  lemma NextInRule(rule: Rule, assets: seq<Option<Asset>>, evaluate: Evaluator, clock: Clock, start: nat,
                   done: seq<Work>, i: nat)
    requires i < |assets|
    ensures var own := RuleWork(rule, assets, evaluate, clock, start);
            var w := WorkAt(rule, assets[i], evaluate, clock(start + i));
            own[..i + 1] == own[..i] + [w] && done + own[..i + 1] == (done + own[..i]) + [w]
  {
    var own := RuleWork(rule, assets, evaluate, clock, start);
    assert own[..i + 1] == own[..i] + [own[i]];
  }

  lemma WholeRule(done: seq<Work>, own: seq<Work>)
    ensures done + own[..0] == done && own[..0] == [] && own[..|own|] == own
  {}

  lemma NextRule(rules: seq<Rule>, r: nat, assets: seq<Asset>, evaluate: Evaluator, clock: Clock)
    requires r < |rules|
    ensures AllWork(rules[..r + 1], assets, evaluate, clock)
            == AllWork(rules[..r], assets, evaluate, clock) + WorkOfRule(rules, r, assets, evaluate, clock)
  {
    assert rules[..r + 1][..r] == rules[..r];
  }

  // ---- Applying work one result at a time -------------------------------------------------------

  function Lookup(table: Table, target: Target): Option<Finding> {
    if target in table then Some(table[target]) else None
  }

  function ApplyWork(table: Table, w: Work, sequence: nat): Table {
    match Reconcile(Lookup(table, w.target), w, sequence)
    case None => table
    case Some(f) => table[w.target := f]
  }

  function ApplyAll(table: Table, work: seq<Work>, sequence: nat): Table {
    if work == [] then table
    else ApplyWork(ApplyAll(table, work[..|work| - 1], sequence), work[|work| - 1], sequence)
  }

  /** A run's counters. */
  datatype Counts = Counts(evaluated: nat, passed: nat, failed: nat, errors: nat, notApplicable: nat,
                           created: nat, updated: nat, reopened: nat, resolved: nat)

  const ZERO := Counts(0, 0, 0, 0, 0, 0, 0, 0, 0)

  function WithStatus(c: Counts, status: Results.Status): Counts {
    match status
    case Passed => c.(evaluated := c.evaluated + 1, passed := c.passed + 1)
    case Failed => c.(evaluated := c.evaluated + 1, failed := c.failed + 1)
    case Error => c.(evaluated := c.evaluated + 1, errors := c.errors + 1)
    case NotApplicable => c.(evaluated := c.evaluated + 1, notApplicable := c.notApplicable + 1)
  }

  function WithEffect(c: Counts, effect: Effect): Counts {
    match effect
    case Created => c.(created := c.created + 1)
    case Updated => c.(updated := c.updated + 1)
    case Reopened => c.(reopened := c.reopened + 1)
    case ResolvedIt => c.(resolved := c.resolved + 1)
    case Untouched => c
  }

  function Tally(c: Counts, status: Results.Status, effect: Effect): Counts {
    WithEffect(WithStatus(c, status), effect)
  }

  function CountAll(table: Table, work: seq<Work>, sequence: nat): Counts {
    if work == [] then ZERO
    else
      var init, last := work[..|work| - 1], work[|work| - 1];
      Tally(CountAll(table, init, sequence), last.result.status,
            EffectOf(Lookup(ApplyAll(table, init, sequence), last.target), last, sequence))
  }

  // ---- The loop is pointwise -----------------------------------------------------------------------

  predicate DistinctTargets(work: seq<Work>) {
    forall i, j :: 0 <= i < j < |work| ==> work[i].target != work[j].target
  }

  /** Rule keys are distinct by construction of the registry, asset ids by the table's key. */
  predicate DistinctInput(rules: seq<Rule>, assets: seq<Asset>) {
    && (forall i, j :: 0 <= i < j < |rules| ==> rules[i].key != rules[j].key)
    && (forall i, j :: 0 <= i < j < |assets| ==> assets[i].id != assets[j].id)
  }

  predicate Listed(asset: Option<Asset>, assets: seq<Asset>) {
    asset.Some? && asset.value in assets
  }

  predicate DistinctIds(targets: seq<Option<Asset>>) {
    forall i, j :: 0 <= i < j < |targets| ==> IdOf(targets[i]) != IdOf(targets[j])
  }

  lemma {:induction false} ApplicableDistinct(kinds: set<AssetType>, assets: seq<Asset>)
    requires forall i, j :: 0 <= i < j < |assets| ==> assets[i].id != assets[j].id
    ensures DistinctIds(Applicable(kinds, assets))
    ensures forall asset :: asset in Applicable(kinds, assets) ==> Listed(asset, assets)
  {
    if assets != [] {
      var init, last := assets[..|assets| - 1], assets[|assets| - 1];
      ApplicableDistinct(kinds, init);
      var r := Applicable(kinds, init);
      forall asset | asset in r ensures Listed(asset, assets) && asset.value.id != last.id {
        assert Listed(asset, init);
        var k :| 0 <= k < |init| && init[k] == asset.value;
        assert assets[k] == init[k];
      }
      assert last in assets;
    }
  }

  /** One rule's work is distinct and all its own. */
  lemma RuleWorkDistinct(rule: Rule, assets: seq<Asset>, evaluate: Evaluator, clock: Clock, start: nat)
    requires forall i, j :: 0 <= i < j < |assets| ==> assets[i].id != assets[j].id
    ensures var own := RuleWork(rule, TargetsOf(rule, assets), evaluate, clock, start);
            DistinctTargets(own) && forall i :: 0 <= i < |own| ==> own[i].target.rule == rule.key
  {
    if rule.kinds.Some? {
      ApplicableDistinct(rule.kinds.value, assets);
    }
    var targets := TargetsOf(rule, assets);
    var own := RuleWork(rule, targets, evaluate, clock, start);
    assert forall i :: 0 <= i < |own| ==> own[i].target == Target(rule.key, IdOf(targets[i]));
    assert DistinctIds(targets);
  }

  // ---- Which results there are --------------------------------------------------------------------

  /** A rule is evaluated once for the account if it names no kinds, and otherwise on the listed assets of its kinds. */
  predicate AppliesTo(rule: Rule, asset: Option<Asset>, assets: seq<Asset>) {
    match asset
    case None => rule.kinds == None
    case Some(a) => a in assets && rule.kinds.Some? && a.kind in rule.kinds.value
  }

  /** The item holds the rule's answer for the asset; an exception counts as an ERROR without evidence. */
  predicate IsWorkOf(w: Work, rule: Rule, asset: Option<Asset>, evaluate: Evaluator) {
    && w.target.rule == rule.key && w.ruleVersion == rule.version
    && w.target.asset == (if asset.None? then None else Some(asset.value.id))
    && (match evaluate(rule, asset)
        case Some(result) => w.result == result
        case None => w.result == Results.RuleResult(Results.Error, Results.Dict([])))
  }

  lemma {:induction false} ApplicableMembers(kinds: set<AssetType>, assets: seq<Asset>, asset: Option<Asset>)
    ensures asset in Applicable(kinds, assets) <==> asset.Some? && asset.value in assets && asset.value.kind in kinds
  {
    if assets != [] {
      var init, last := assets[..|assets| - 1], assets[|assets| - 1];
      ApplicableMembers(kinds, init, asset);
      assert assets == init + [last];
    }
  }

  lemma TargetMembers(rule: Rule, assets: seq<Asset>, asset: Option<Asset>)
    ensures asset in TargetsOf(rule, assets) <==> AppliesTo(rule, asset, assets)
  {
    if rule.kinds.Some? {
      ApplicableMembers(rule.kinds.value, assets, asset);
    }
  }

  lemma OwnWork(rule: Rule, assets: seq<Asset>, evaluate: Evaluator, clock: Clock, start: nat, k: nat)
    requires k < |TargetsOf(rule, assets)|
    ensures var own, asset := RuleWork(rule, TargetsOf(rule, assets), evaluate, clock, start), TargetsOf(rule, assets)[k];
            && |own| == |TargetsOf(rule, assets)| && AppliesTo(rule, asset, assets) && IsWorkOf(own[k], rule, asset, evaluate)
            && own[k].now == clock(start + k).now && own[k].meanwhile == clock(start + k).meanwhile
  {
    TargetMembers(rule, assets, TargetsOf(rule, assets)[k]);
  }

  lemma OwnWorkFor(rule: Rule, assets: seq<Asset>, evaluate: Evaluator, clock: Clock, start: nat, asset: Option<Asset>)
    returns (k: nat)
    requires AppliesTo(rule, asset, assets)
    ensures var own := RuleWork(rule, TargetsOf(rule, assets), evaluate, clock, start);
            k < |own| && IsWorkOf(own[k], rule, asset, evaluate)
  {
    TargetMembers(rule, assets, asset);
    k :| k < |TargetsOf(rule, assets)| && TargetsOf(rule, assets)[k] == asset;
    OwnWork(rule, assets, evaluate, clock, start, k);
  }

  lemma Second<T>(a: seq<T>, b: seq<T>, k: nat)
    requires k < |b|
    ensures (a + b)[|a| + k] == b[k]
  {}

  lemma WorkAppends(rules: seq<Rule>, assets: seq<Asset>, evaluate: Evaluator, clock: Clock)
    returns (done: seq<Work>, own: seq<Work>)
    requires rules != []
    ensures AllWork(rules, assets, evaluate, clock) == done + own
    ensures done == AllWork(rules[..|rules| - 1], assets, evaluate, clock)
    ensures own == RuleWork(rules[|rules| - 1], TargetsOf(rules[|rules| - 1], assets), evaluate, clock, |done|)
    ensures |own| == |TargetsOf(rules[|rules| - 1], assets)|
  {
    done := AllWork(rules[..|rules| - 1], assets, evaluate, clock);
    own := RuleWork(rules[|rules| - 1], TargetsOf(rules[|rules| - 1], assets), evaluate, clock, |done|);
  }

  /** The item is the r-th rule's answer for an asset it applies to, applied at this moment. */
  predicate IsTurn(w: Work, rules: seq<Rule>, r: nat, asset: Option<Asset>, assets: seq<Asset>, evaluate: Evaluator, at: Moment) {
    r < |rules| && AppliesTo(rules[r], asset, assets) && IsWorkOf(w, rules[r], asset, evaluate)
    && w.now == at.now && w.meanwhile == at.meanwhile
  }

  /** The item is the answer of some listed rule for an asset it applies to, applied at this moment. */
  ghost predicate IsSound(w: Work, rules: seq<Rule>, assets: seq<Asset>, evaluate: Evaluator, at: Moment) {
    exists r, asset :: 0 <= r && IsTurn(w, rules, r, asset, assets, evaluate, at)
  }

  lemma SoundStays(w: Work, rules: seq<Rule>, assets: seq<Asset>, evaluate: Evaluator, at: Moment)
    requires rules != [] && IsSound(w, rules[..|rules| - 1], assets, evaluate, at)
    ensures IsSound(w, rules, assets, evaluate, at)
  {
    var init := rules[..|rules| - 1];
    var r, asset :| 0 <= r && IsTurn(w, init, r, asset, assets, evaluate, at);
    assert init[r] == rules[r];
    assert IsTurn(w, rules, r, asset, assets, evaluate, at);
  }

  lemma LastSound(w: Work, rules: seq<Rule>, assets: seq<Asset>, evaluate: Evaluator, clock: Clock, start: nat, k: nat)
    requires rules != [] && k < |TargetsOf(rules[|rules| - 1], assets)|
    requires w == RuleWork(rules[|rules| - 1], TargetsOf(rules[|rules| - 1], assets), evaluate, clock, start)[k]
    ensures IsSound(w, rules, assets, evaluate, clock(start + k))
  {
    var r, asset := |rules| - 1, TargetsOf(rules[|rules| - 1], assets)[k];
    OwnWork(rules[r], assets, evaluate, clock, start, k);
    assert IsTurn(w, rules, r, asset, assets, evaluate, clock(start + k));
  }

  /** Every result is that of a listed rule for an asset it applies to, at the time of its turn. */
  lemma {:induction false} WorkSound(rules: seq<Rule>, assets: seq<Asset>, evaluate: Evaluator, clock: Clock, i: nat)
    requires i < |AllWork(rules, assets, evaluate, clock)|
    ensures IsSound(AllWork(rules, assets, evaluate, clock)[i], rules, assets, evaluate, clock(i))
  {
    var w := AllWork(rules, assets, evaluate, clock)[i];
    var done, own := WorkAppends(rules, assets, evaluate, clock);
    if i < |done| {
      assert w == done[i];
      WorkSound(rules[..|rules| - 1], assets, evaluate, clock, i);
      SoundStays(w, rules, assets, evaluate, clock(i));
    } else {
      Second(done, own, i - |done|);
      LastSound(w, rules, assets, evaluate, clock, |done|, i - |done|);
    }
  }

  /** Every listed rule has a result for every asset it applies to. */
  lemma {:induction false} WorkComplete(rules: seq<Rule>, assets: seq<Asset>, evaluate: Evaluator, clock: Clock, r: nat,
                                        asset: Option<Asset>)
    returns (i: nat)
    requires r < |rules| && AppliesTo(rules[r], asset, assets)
    ensures i < |AllWork(rules, assets, evaluate, clock)|
    ensures IsWorkOf(AllWork(rules, assets, evaluate, clock)[i], rules[r], asset, evaluate)
  {
    var init, rule := rules[..|rules| - 1], rules[|rules| - 1];
    var done, own := WorkAppends(rules, assets, evaluate, clock);
    if r < |init| {
      assert init[r] == rules[r];
      i := WorkComplete(init, assets, evaluate, clock, r, asset);
      assert (done + own)[i] == done[i];
    } else {
      var k := OwnWorkFor(rule, assets, evaluate, clock, |done|, asset);
      i := |done| + k;
      Second(done, own, k);
    }
  }

  /** The target is that of the r-th rule and an asset it applies to. */
  predicate Names(rules: seq<Rule>, r: nat, asset: Option<Asset>, assets: seq<Asset>, target: Target) {
    r < |rules| && AppliesTo(rules[r], asset, assets)
    && target == Target(rules[r].key, if asset.None? then None else Some(asset.value.id))
  }

  ghost predicate WorkedOn(work: seq<Work>, target: Target) {
    exists i :: 0 <= i < |work| && work[i].target == target
  }

  /** A target is worked on exactly when a listed rule with its key applies to its asset, or to the whole account. */
  lemma TargetIff(rules: seq<Rule>, assets: seq<Asset>, evaluate: Evaluator, clock: Clock, target: Target)
    ensures WorkedOn(AllWork(rules, assets, evaluate, clock), target)
            <==> exists r, asset: Option<Asset> :: 0 <= r && Names(rules, r, asset, assets, target)
  {
    var work := AllWork(rules, assets, evaluate, clock);
    if WorkedOn(work, target) {
      var i :| 0 <= i < |work| && work[i].target == target;
      WorkSound(rules, assets, evaluate, clock, i);
      var r, asset :| 0 <= r && IsTurn(work[i], rules, r, asset, assets, evaluate, clock(i));
      assert Names(rules, r, asset, assets, target);
    }
    if r, asset: Option<Asset> :| 0 <= r && Names(rules, r, asset, assets, target) {
      var i := WorkComplete(rules, assets, evaluate, clock, r, asset);
      assert work[i].target == target;
    }
  }

  lemma {:induction false} WorkDistinct(rules: seq<Rule>, assets: seq<Asset>, evaluate: Evaluator, clock: Clock)
    requires DistinctInput(rules, assets)
    ensures var work := AllWork(rules, assets, evaluate, clock);
            && DistinctTargets(work)
            && (forall i :: 0 <= i < |work| ==> KeyOfSome(rules, work[i].target.rule))
  {
    if rules != [] {
      var init, rule := rules[..|rules| - 1], rules[|rules| - 1];
      WorkDistinct(init, assets, evaluate, clock);
      var done := AllWork(init, assets, evaluate, clock);
      RuleWorkDistinct(rule, assets, evaluate, clock, |done|);
      assert rules[|rules| - 1].key == rule.key;
      forall i | 0 <= i < |done| ensures done[i].target.rule != rule.key && KeyOfSome(rules, done[i].target.rule) {
        var r :| 0 <= r < |init| && init[r].key == done[i].target.rule;
        assert rules[r].key == done[i].target.rule;
      }
    }
  }

  ghost predicate KeyOfSome(rules: seq<Rule>, key: RuleKey) {
    exists r :: 0 <= r < |rules| && rules[r].key == key
  }

  /** The finding a whole run leaves under one target. */
  ghost function FinalFinding(table: Table, work: seq<Work>, sequence: nat, target: Target): Option<Finding> {
    if exists i :: 0 <= i < |work| && work[i].target == target
    then var i :| 0 <= i < |work| && work[i].target == target; Reconcile(Lookup(table, target), work[i], sequence)
    else Lookup(table, target)
  }

  /** Each finding depends only on its own old state and its own result; every other one is untouched. */
  lemma {:induction false} ApplyAllPointwise(table: Table, work: seq<Work>, sequence: nat, target: Target)
    requires DistinctTargets(work)
    ensures Lookup(ApplyAll(table, work, sequence), target) == FinalFinding(table, work, sequence, target)
  {
    if work != [] {
      var init, last := work[..|work| - 1], work[|work| - 1];
      ApplyAllPointwise(table, init, sequence, target);
      if last.target == target {
        assert forall i :: 0 <= i < |init| ==> init[i].target == work[i].target != target;
        assert work[|work| - 1].target == target;
      } else if exists i :: 0 <= i < |work| && work[i].target == target {
        var i :| 0 <= i < |work| && work[i].target == target;
        assert init[i].target == target;
      } else {
        assert forall i :: 0 <= i < |init| ==> init[i] == work[i];
      }
    }
  }

  /** After the whole run, a finding's status follows from what it was before, its own result and the clock. */
  lemma FinalStatus(table: Table, work: seq<Work>, sequence: nat, k: nat)
    requires DistinctTargets(work) && k < |work| && !Stale(Lookup(table, work[k].target), sequence)
    ensures StatusFollows(Met(Lookup(table, work[k].target), work[k]),
                          Lookup(ApplyAll(table, work, sequence), work[k].target), work[k])
  {
    ApplyAllPointwise(table, work, sequence, work[k].target);
    FinalAt(table, work, sequence, k);
    StatusAfter(Lookup(table, work[k].target), work[k], sequence);
  }

  lemma FinalAt(table: Table, work: seq<Work>, sequence: nat, k: nat)
    requires DistinctTargets(work) && k < |work|
    ensures FinalFinding(table, work, sequence, work[k].target) == Reconcile(Lookup(table, work[k].target), work[k], sequence)
  {}

  /** Each result meets the finding as it was before the run. */
  lemma EffectPointwise(table: Table, work: seq<Work>, sequence: nat, k: nat)
    requires DistinctTargets(work) && k < |work|
    ensures Lookup(ApplyAll(table, work[..k], sequence), work[k].target) == Lookup(table, work[k].target)
  {
    ApplyAllPointwise(table, work[..k], sequence, work[k].target);
    assert forall i :: 0 <= i < k ==> work[..k][i].target != work[k].target;
  }

  // ---- Counting -----------------------------------------------------------------------------------------

  function CountStatus(work: seq<Work>, status: Results.Status): nat {
    if work == [] then 0
    else CountStatus(work[..|work| - 1], status) + if work[|work| - 1].result.status == status then 1 else 0
  }

  /** Failed results whose finding was not already claimed by a newer job. */
  function CountLiveFailures(table: Table, work: seq<Work>, sequence: nat): nat {
    if work == [] then 0
    else
      var last := work[|work| - 1];
      CountLiveFailures(table, work[..|work| - 1], sequence)
      + if last.result.status.Failed? && !Stale(Lookup(table, last.target), sequence) then 1 else 0
  }

  ghost function Places(work: seq<Work>, status: Results.Status): set<int> {
    set i | 0 <= i < |work| && work[i].result.status == status
  }

  lemma OnePlace(places: set<int>, n: int)
    requires n !in places
    ensures |places + {n}| == |places| + 1
  {}

  /** A count of results is the number of their places. */
  lemma {:induction false} CountIsNumber(work: seq<Work>, status: Results.Status)
    ensures CountStatus(work, status) == |Places(work, status)|
  {
    if work == [] {
      assert Places(work, status) == {};
    } else {
      var init, n := work[..|work| - 1], |work| - 1;
      CountIsNumber(init, status);
      OnePlace(Places(init, status), n);
      assert Places(work, status)
          == if work[n].result.status == status then Places(init, status) + {n} else Places(init, status);
    }
  }

  /** How one result moves the counters. */
  lemma TallyStatus(c: Counts, status: Results.Status, effect: Effect)
    ensures var after := Tally(c, status, effect);
            && after.evaluated == c.evaluated + 1
            && after.passed == c.passed + (if status.Passed? then 1 else 0)
            && after.failed == c.failed + (if status.Failed? then 1 else 0)
            && after.errors == c.errors + (if status.Error? then 1 else 0)
            && after.notApplicable == c.notApplicable + (if status.NotApplicable? then 1 else 0)
  {}

  lemma {:induction false} StatusCounters(table: Table, work: seq<Work>, sequence: nat)
    ensures var c := CountAll(table, work, sequence);
            && c.evaluated == |work| == c.passed + c.failed + c.errors + c.notApplicable
            && c.passed == CountStatus(work, Results.Passed)
            && c.failed == CountStatus(work, Results.Failed)
            && c.errors == CountStatus(work, Results.Error)
            && c.notApplicable == CountStatus(work, Results.NotApplicable)
  {
    if work != [] {
      var init, last := work[..|work| - 1], work[|work| - 1];
      StatusCounters(table, init, sequence);
      var c, status := CountAll(table, init, sequence), last.result.status;
      var effect := EffectOf(Lookup(ApplyAll(table, init, sequence), last.target), last, sequence);
      assert CountAll(table, work, sequence) == Tally(c, status, effect);
      TallyStatus(c, status, effect);
    }
  }

  lemma TallyEffect(c: Counts, f: Option<Finding>, w: Work, sequence: nat)
    ensures var after := Tally(c, w.result.status, EffectOf(f, w, sequence));
            && after.created + after.updated + after.reopened
               == c.created + c.updated + c.reopened + (if w.result.status.Failed? && !Stale(f, sequence) then 1 else 0)
            && after.resolved - after.passed <= c.resolved - c.passed
  {}

  lemma {:induction false} EffectCounters(table: Table, work: seq<Work>, sequence: nat)
    requires DistinctTargets(work)
    ensures var c := CountAll(table, work, sequence);
            && c.created + c.updated + c.reopened == CountLiveFailures(table, work, sequence)
            && c.resolved <= c.passed
  {
    if work != [] {
      var init, last := work[..|work| - 1], work[|work| - 1];
      EffectCounters(table, init, sequence);
      EffectPointwise(table, work, sequence, |work| - 1);
      var c, effect := CountAll(table, init, sequence), EffectOf(Lookup(table, last.target), last, sequence);
      assert CountAll(table, work, sequence) == Tally(c, last.result.status, effect);
      TallyEffect(c, Lookup(table, last.target), last, sequence);
    }
  }

  /** The counters agree with independent counts of the results. */
  lemma CountersConserve(table: Table, work: seq<Work>, sequence: nat)
    requires DistinctTargets(work)
    ensures var c := CountAll(table, work, sequence);
            && c.evaluated == |work| == c.passed + c.failed + c.errors + c.notApplicable
            && c.passed == CountStatus(work, Results.Passed)
            && c.failed == CountStatus(work, Results.Failed)
            && c.errors == CountStatus(work, Results.Error)
            && c.notApplicable == CountStatus(work, Results.NotApplicable)
            && c.created + c.updated + c.reopened == CountLiveFailures(table, work, sequence)
            && c.resolved <= c.passed
  {
    StatusCounters(table, work, sequence);
    EffectCounters(table, work, sequence);
  }

  /** Running the same rules over the same assets again. */
  predicate SameResults(work: seq<Work>, again: seq<Work>) {
    && |work| == |again|
    && (forall i :: 0 <= i < |work| ==> && work[i].target == again[i].target
                                        && work[i].result == again[i].result && work[i].now <= again[i].now)
  }

  /** No suppression that shielded a finding in the first run has run out by the second. */
  predicate NothingExpires(table: Table, work: seq<Work>, again: seq<Work>)
    requires |work| == |again|
  {
    forall i :: 0 <= i < |work| ==>
      var met := Met(Lookup(table, work[i].target), work[i]);
      met.Some? && ActivelySuppressed(met.value, work[i].now) ==> ActivelySuppressed(met.value, again[i].now)
  }

  /** A second run with the same results creates, reopens and resolves nothing. */
  lemma {:induction false} SecondRunIsQuiet(table: Table, work: seq<Work>, again: seq<Work>, sequence: nat, next: nat, n: nat)
    requires DistinctTargets(work) && SameResults(work, again) && sequence <= next && n <= |again|
    requires NothingExpires(table, work, again)
    requires forall target :: target in table ==> !Stale(Some(table[target]), sequence)
    ensures var c := CountAll(ApplyAll(table, work, sequence), again[..n], next);
            c.created == 0 && c.reopened == 0 && c.resolved == 0
  {
    if n > 0 {
      var k := n - 1;
      SecondRunIsQuiet(table, work, again, sequence, next, k);
      var after := ApplyAll(table, work, sequence);
      assert again[..n][..k] == again[..k];
      forall i, j | 0 <= i < j < |again| ensures again[i].target != again[j].target {
        assert work[i].target != work[j].target;
      }
      EffectPointwise(after, again, next, k);
      ApplyAllPointwise(table, work, sequence, work[k].target);
      FinalAt(table, work, sequence, k);
      var found := Lookup(table, work[k].target);
      RepeatIsQuietIff(found, work[k], again[k], sequence, next);
      assert Lookup(after, again[k].target) == Reconcile(found, work[k], sequence);
    }
  }

  // ---- Terminal status -------------------------------------------------------------------------------------

  datatype JobStatus = Completed | PartiallyCompleted | JobFailed

  function Terminal(c: Counts, anyErrors: bool): JobStatus {
    if c.evaluated > 0 && c.errors == c.evaluated then JobFailed
    else if anyErrors then PartiallyCompleted
    else Completed
  }

  predicate IsError(w: Work) { w.result.status.Error? }

  predicate AnyError(work: seq<Work>) {
    exists i :: 0 <= i < |work| && IsError(work[i])
  }

  lemma AnyErrorConcat(a: seq<Work>, b: seq<Work>)
    ensures AnyError(a + b) <==> AnyError(a) || AnyError(b)
  {
    if AnyError(a) {
      var i :| 0 <= i < |a| && IsError(a[i]);
      assert IsError((a + b)[i]);
    } else if AnyError(b) {
      var i :| 0 <= i < |b| && IsError(b[i]);
      assert IsError((a + b)[|a| + i]);
    }
  }

  lemma AnyErrorNext(work: seq<Work>, w: Work)
    ensures AnyError(work + [w]) <==> AnyError(work) || IsError(w)
  {
    AnyErrorConcat(work, [w]);
    assert [w][0] == w;
  }

  lemma {:induction false} ErrorCount(work: seq<Work>)
    ensures CountStatus(work, Results.Error) <= |work|
    ensures CountStatus(work, Results.Error) == 0 <==> forall i :: 0 <= i < |work| ==> !IsError(work[i])
    ensures CountStatus(work, Results.Error) == |work| <==> forall i :: 0 <= i < |work| ==> IsError(work[i])
  {
    if work != [] {
      var init := work[..|work| - 1];
      ErrorCount(init);
      assert forall i :: 0 <= i < |init| ==> init[i] == work[i];
    }
  }

  /** FAILED means every result (of at least one) was an error, COMPLETED that none was, PARTIAL that only some were. */
  lemma TerminalMeaning(table: Table, work: seq<Work>, sequence: nat)
    requires DistinctTargets(work)
    ensures var status := Terminal(CountAll(table, work, sequence), AnyError(work));
            && (status.JobFailed? <==> work != [] && forall i :: 0 <= i < |work| ==> IsError(work[i]))
            && (status.Completed? <==> forall i :: 0 <= i < |work| ==> !IsError(work[i]))
            && (status.PartiallyCompleted? <==>
                  AnyError(work) && (exists i :: 0 <= i < |work| && !IsError(work[i])))
  {
    CountersConserve(table, work, sequence);
    ErrorCount(work);
    if work != [] {
      assert IsError(work[0]) || !IsError(work[0]);
    }
  }

  // ---- Per-rule summaries -------------------------------------------------------------------------------------

  datatype Summary = Summary(passed: nat, failed: nat, errors: nat, notApplicable: nat)

  function SummaryOf(work: seq<Work>): Summary {
    Summary(CountStatus(work, Results.Passed), CountStatus(work, Results.Failed),
            CountStatus(work, Results.Error), CountStatus(work, Results.NotApplicable))
  }

  function Add(a: Summary, b: Summary): Summary {
    Summary(a.passed + b.passed, a.failed + b.failed, a.errors + b.errors, a.notApplicable + b.notApplicable)
  }

  /** The summaries a run leaves, one per rule in order. */
  function RuleSummaries(rules: seq<Rule>, assets: seq<Asset>, evaluate: Evaluator, clock: Clock): seq<Summary> {
    if rules == [] then []
    else
      var init := rules[..|rules| - 1];
      RuleSummaries(init, assets, evaluate, clock) + [SummaryOf(WorkOfRule(rules, |rules| - 1, assets, evaluate, clock))]
  }

  lemma SameWork(rules: seq<Rule>, r: nat, assets: seq<Asset>, evaluate: Evaluator, clock: Clock)
    requires r < |rules| - 1
    ensures WorkOfRule(rules[..|rules| - 1], r, assets, evaluate, clock) == WorkOfRule(rules, r, assets, evaluate, clock)
  {
    assert rules[..|rules| - 1][..r] == rules[..r];
  }

  /** The r-th summary counts exactly the r-th rule's results. */
  lemma {:induction false} SummaryAt(rules: seq<Rule>, r: nat, assets: seq<Asset>, evaluate: Evaluator, clock: Clock)
    requires r < |rules|
    ensures |RuleSummaries(rules, assets, evaluate, clock)| == |rules|
    ensures RuleSummaries(rules, assets, evaluate, clock)[r] == SummaryOf(WorkOfRule(rules, r, assets, evaluate, clock))
  {
    var init := rules[..|rules| - 1];
    if r < |init| {
      SummaryAt(init, r, assets, evaluate, clock);
      SameWork(rules, r, assets, evaluate, clock);
    } else if init != [] {
      SummaryAt(init, 0, assets, evaluate, clock);
    }
  }

  function Total(summaries: seq<Summary>): Summary {
    if summaries == [] then Summary(0, 0, 0, 0)
    else Add(Total(summaries[..|summaries| - 1]), summaries[|summaries| - 1])
  }

  lemma {:induction false} CountStatusConcat(a: seq<Work>, b: seq<Work>, status: Results.Status)
    ensures CountStatus(a + b, status) == CountStatus(a, status) + CountStatus(b, status)
  {
    if b == [] {
      assert a + b == a;
    } else {
      assert (a + b)[..|a + b| - 1] == a + b[..|b| - 1];
      CountStatusConcat(a, b[..|b| - 1], status);
    }
  }

  /** c stands for a + b. */
  lemma SummaryParts(a: seq<Work>, b: seq<Work>, c: seq<Work>)
    requires forall status :: CountStatus(c, status) == CountStatus(a, status) + CountStatus(b, status)
    ensures SummaryOf(c) == Add(SummaryOf(a), SummaryOf(b))
  {}

  lemma SummaryConcat(a: seq<Work>, b: seq<Work>)
    ensures SummaryOf(a + b) == Add(SummaryOf(a), SummaryOf(b))
  {
    var c := a + b;
    forall status ensures CountStatus(c, status) == CountStatus(a, status) + CountStatus(b, status) {
      CountStatusConcat(a, b, status);
    }
    SummaryParts(a, b, c);
  }

  /** The job's counters are the sums over the rules' summaries. */
  lemma {:induction false} SummariesAddUp(rules: seq<Rule>, assets: seq<Asset>, evaluate: Evaluator, clock: Clock)
    ensures Total(RuleSummaries(rules, assets, evaluate, clock)) == SummaryOf(AllWork(rules, assets, evaluate, clock))
    ensures |RuleSummaries(rules, assets, evaluate, clock)| == |rules|
  {
    if rules != [] {
      var init, rule := rules[..|rules| - 1], rules[|rules| - 1];
      SummariesAddUp(init, assets, evaluate, clock);
      var done := AllWork(init, assets, evaluate, clock);
      var own := RuleWork(rule, TargetsOf(rule, assets), evaluate, clock, |done|);
      var summaries := RuleSummaries(rules, assets, evaluate, clock);
      assert summaries[..|summaries| - 1] == RuleSummaries(init, assets, evaluate, clock);
      SummaryConcat(done, own);
    }
  }

  // ---- The whole run -------------------------------------------------------------------------------------------

  /**
   * A run over distinct rules and assets is pointwise, leaves every other finding alone, counts each
   * result once, and reports the sums of its rules' summaries.
   */
  lemma RunReconciles(table: Table, rules: seq<Rule>, assets: seq<Asset>, evaluate: Evaluator, clock: Clock,
                      sequence: nat, target: Target)
    requires DistinctInput(rules, assets)
    ensures var work := AllWork(rules, assets, evaluate, clock);
            var c := CountAll(table, work, sequence);
            && Lookup(ApplyAll(table, work, sequence), target) == FinalFinding(table, work, sequence, target)
            && c.created + c.updated + c.reopened == CountLiveFailures(table, work, sequence)
            && Summary(c.passed, c.failed, c.errors, c.notApplicable) == Total(RuleSummaries(rules, assets, evaluate, clock))
            && c.evaluated == |work| && c.resolved <= c.passed
  {
    var work := AllWork(rules, assets, evaluate, clock);
    WorkDistinct(rules, assets, evaluate, clock);
    ApplyAllPointwise(table, work, sequence, target);
    CountersConserve(table, work, sequence);
    SummariesAddUp(rules, assets, evaluate, clock);
  }
}
