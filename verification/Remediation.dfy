/** The two approved AWS actions (services/aws_remediation_executor.py), with AWS free to answer anything at each call. */
module Remediation {
  import opened Prelude
  import T = Text

  // ---- Security group rules as dictionaries -------------------------------------------------------

  datatype Field =
    | GroupId | RuleId | IsEgress | IpProtocol | FromPort | ToPort | CidrIpv4 | CidrIpv6 | PrefixListId | ReferencedGroup
    | Description | Unlisted(name: string)
  datatype Value = Text(text: string) | Flag(on: bool) | Number(n: int) | Nested(shown: string)
  type Dict = map<Field, Value>
  /** An element of a JSON list. */
  datatype Item = Object(fields: Dict) | Other

  function Get(d: Dict, f: Field): Option<Value> {
    if f in d then Some(d[f]) else None
  }

  /** str(value) */
  function Show(v: Value): string {
    match v
    case Text(text) => text
    case Flag(on) => if on then "True" else "False"
    case Number(n) => if n < 0 then "-" + T.Decimal(-n) else T.Decimal(n)
    case Nested(shown) => shown
  }

  predicate Truthy(v: Option<Value>) {
    match v
    case None => false
    case Some(Text(text)) => text != ""
    case Some(Flag(on)) => on
    case Some(Number(n)) => n != 0
    case Some(Nested(_)) => true
  }

  /** Keep the listed fields; IsEgress becomes a proper boolean. */
  function Normalize(d: Dict): Dict {
    map f | f in d && !f.Unlisted? :: if f == IsEgress then Flag(d[f] == Flag(true)) else d[f]
  }

  // ---- The approved rule --------------------------------------------------------------------------

  datatype FindingRule = AllTraffic | Ssh | Rdp
  datatype AssetType = SecurityGroup | Bucket | OtherType
  datatype Asset = Asset(kind: AssetType, resourceId: string, vpc: Option<string>, rules: Option<seq<Item>>)
  datatype Context = Context(asset: Asset, finding: FindingRule)

  predicate MatchesFinding(finding: FindingRule, d: Dict) {
    && (Get(d, CidrIpv4) == Some(Text("0.0.0.0/0")) || Get(d, CidrIpv6) == Some(Text("::/0")))
    && var protocol := if IpProtocol in d then Show(d[IpProtocol]) else "None";
       if finding.AllTraffic? then protocol == "-1"
       else
         var port := Some(Number(if finding.Ssh? then 22 else 3389));
         protocol == "tcp" && Get(d, FromPort) == port && Get(d, ToPort) == port
  }

  predicate IsCandidate(context: Context, item: Item) {
    item.Object? && Get(item.fields, GroupId) == Some(Text(context.asset.resourceId))
    && Get(item.fields, IsEgress) == Some(Flag(false)) && MatchesFinding(context.finding, item.fields)
  }

  function Candidates(context: Context, items: seq<Item>): seq<Dict> {
    if items == [] then []
    else (if IsCandidate(context, items[0]) then [Normalize(items[0].fields)] else []) + Candidates(context, items[1..])
  }

  datatype Refusal =
    | TypeMismatch | GroupNotFound | ResourceMismatch | Drift | TagsMissing
    | EvidenceMissing | NotUnambiguous | VerificationFailed | UnrelatedChanged | PrefixNotAllowed | Aws(code: string)
  datatype Approval = Approved(rule: Dict) | Refused(why: Refusal)

  function ApprovedRule(context: Context): Approval {
    if context.asset.rules.None? then Refused(EvidenceMissing)
    else
      var candidates := Candidates(context, context.asset.rules.value);
      if |candidates| != 1 || !Truthy(Get(candidates[0], RuleId)) then Refused(NotUnambiguous) else Approved(candidates[0])
  }

  lemma {:induction false} OneCandidate(context: Context, items: seq<Item>) returns (i: nat)
    requires |Candidates(context, items)| == 1
    ensures OnlyCandidate(context, items, i) && Candidates(context, items) == [Normalize(items[i].fields)]
  {
    var rest := items[1..];
    assert forall j :: 0 < j < |items| ==> items[j] == rest[j - 1];
    if IsCandidate(context, items[0]) {
      NoneLeft(context, rest);
      i := 0;
    } else {
      var k := OneCandidate(context, rest);
      i := k + 1;
    }
  }

  lemma {:induction false} NoneLeft(context: Context, items: seq<Item>)
    requires Candidates(context, items) == []
    ensures forall j :: 0 <= j < |items| ==> !IsCandidate(context, items[j])
  {
    if items != [] {
      NoneLeft(context, items[1..]);
      assert forall j :: 0 < j < |items| ==> items[j] == items[1..][j - 1];
    }
  }

  predicate OnlyCandidate(context: Context, items: seq<Item>, i: nat) {
    i < |items| && IsCandidate(context, items[i]) && forall j :: 0 <= j < |items| && j != i ==> !IsCandidate(context, items[j])
  }

  lemma {:induction false} OnlyOne(context: Context, items: seq<Item>, i: nat)
    requires OnlyCandidate(context, items, i)
    ensures Candidates(context, items) == [Normalize(items[i].fields)]
  {
    var rest := items[1..];
    assert forall j :: 0 <= j < |rest| ==> rest[j] == items[j + 1];
    if i > 0 {
      OnlyOne(context, rest, i - 1);
    } else {
      NoCandidates(context, rest);
    }
  }

  lemma {:induction false} NoCandidates(context: Context, items: seq<Item>)
    requires forall j :: 0 <= j < |items| ==> !IsCandidate(context, items[j])
    ensures Candidates(context, items) == []
  {
    if items != [] {
      NoCandidates(context, items[1..]);
    }
  }

  /** A rule is approved exactly when the evidence has one candidate, that one, and it carries an id. */
  lemma ApprovedIff(context: Context, rule: Dict)
    ensures ApprovedRule(context) == Approved(rule)
            <==> context.asset.rules.Some? && Truthy(Get(rule, RuleId))
                 && exists i :: 0 <= i < |context.asset.rules.value|
                      && OnlyCandidate(context, context.asset.rules.value, i)
                      && rule == Normalize(context.asset.rules.value[i].fields)
  {
    if context.asset.rules.Some? {
      var items := context.asset.rules.value;
      if ApprovedRule(context) == Approved(rule) {
        var i := OneCandidate(context, items);
      }
      if i :| 0 <= i < |items| && OnlyCandidate(context, items, i) && rule == Normalize(items[i].fields) {
        OnlyOne(context, items, i);
      }
    }
  }

  /** A rule from anywhere over tcp on exactly this port. */
  predicate OpensPort(d: Dict, port: int) {
    IpProtocol in d && Show(d[IpProtocol]) == "tcp" && Get(d, FromPort) == Some(Number(port)) && Get(d, ToPort) == Some(Number(port))
  }

  /** An ingress rule of the group, open to the world, for what the finding reports: port 22, port 3389, or all traffic. */
  predicate Offends(context: Context, item: Item) {
    && item.Object? && Get(item.fields, GroupId) == Some(Text(context.asset.resourceId))
    && Get(item.fields, IsEgress) == Some(Flag(false))
    && (Get(item.fields, CidrIpv4) == Some(Text("0.0.0.0/0")) || Get(item.fields, CidrIpv6) == Some(Text("::/0")))
    && match context.finding
       case Ssh => OpensPort(item.fields, 22)
       case Rdp => OpensPort(item.fields, 3389)
       case AllTraffic => IpProtocol in item.fields && Show(item.fields[IpProtocol]) == "-1"
  }

  predicate OnlyOffender(context: Context, items: seq<Item>, i: nat) {
    i < |items| && Offends(context, items[i]) && forall j :: 0 <= j < |items| && j != i ==> !Offends(context, items[j])
  }

  /** The rule approved is the one offending rule of the evidence, in its normal form, provided it carries an id; with none or
      several, or without an id, no rule is approved. */
  lemma ApprovedIsSoleOffender(context: Context, rule: Dict)
    ensures ApprovedRule(context) == Approved(rule)
            <==> context.asset.rules.Some? && Truthy(Get(rule, RuleId))
                 && exists i :: 0 <= i && OnlyOffender(context, context.asset.rules.value, i)
                      && rule == Normalize(context.asset.rules.value[i].fields)
  {
    ApprovedIff(context, rule);
    forall item ensures IsCandidate(context, item) <==> Offends(context, item) {}
    if context.asset.rules.Some? {
      var items := context.asset.rules.value;
      forall i | 0 <= i < |items| ensures OnlyCandidate(context, items, i) <==> OnlyOffender(context, items, i) {}
    }
  }

  /** What can be read off an approved rule itself. */
  lemma ApprovedRuleOffends(context: Context)
    requires ApprovedRule(context).Approved?
    ensures var rule := ApprovedRule(context).rule;
            && Get(rule, GroupId) == Some(Text(context.asset.resourceId)) && Get(rule, IsEgress) == Some(Flag(false))
            && (Get(rule, CidrIpv4) == Some(Text("0.0.0.0/0")) || Get(rule, CidrIpv6) == Some(Text("::/0")))
            && (context.finding == Ssh ==> OpensPort(rule, 22)) && (context.finding == Rdp ==> OpensPort(rule, 3389))
            && (context.finding == AllTraffic ==> IpProtocol in rule && Show(rule[IpProtocol]) == "-1")
  {
    var rule := ApprovedRule(context).rule;
    ApprovedIsSoleOffender(context, rule);
    var i :| 0 <= i && OnlyOffender(context, context.asset.rules.value, i) && rule == Normalize(context.asset.rules.value[i].fields);
    assert Offends(context, context.asset.rules.value[i]);
  }

  /** Normalizing keeps the eleven listed fields with their values, the direction as a boolean. */
  lemma NormalizeKeeps(d: Dict, f: Field)
    ensures f in Normalize(d)
            <==> f in d && f in {GroupId, RuleId, IsEgress, IpProtocol, FromPort, ToPort, CidrIpv4, CidrIpv6, PrefixListId,
                                 ReferencedGroup, Description}
    ensures f in Normalize(d) && f != IsEgress ==> Normalize(d)[f] == d[f]
    ensures IsEgress in d ==> Normalize(d)[IsEgress] == Flag(d[IsEgress] == Flag(true))
  {}

  // ---- Rules as AWS lists them --------------------------------------------------------------------

  predicate OfGroup(item: Item, groupId: string) {
    item.Object? && Get(item.fields, GroupId) == Some(Text(groupId))
  }

  function Listed(items: seq<Item>, groupId: string): seq<Dict> {
    if items == [] then []
    else
      var last := items[|items| - 1];
      Listed(items[..|items| - 1], groupId) + if OfGroup(last, groupId) then [Normalize(last.fields)] else []
  }

  /** A rule is listed exactly when an element of the pages is a rule of the group with that normal form. */
  lemma {:induction false} ListedMembers(items: seq<Item>, groupId: string, d: Dict)
    ensures d in Listed(items, groupId)
            <==> exists item :: item in items && item.Object? && Get(item.fields, GroupId) == Some(Text(groupId))
                   && d == Normalize(item.fields)
  {
    if items != [] {
      ListedMembers(items[..|items| - 1], groupId, d);
      assert items == items[..|items| - 1] + [items[|items| - 1]];
    }
  }

  function Flatten(pages: seq<seq<Item>>): seq<Item> {
    if pages == [] then [] else Flatten(pages[..|pages| - 1]) + pages[|pages| - 1]
  }

  lemma {:induction false} FlattenMembers(pages: seq<seq<Item>>, item: Item)
    ensures item in Flatten(pages) <==> exists page :: page in pages && item in page
  {
    if pages != [] {
      FlattenMembers(pages[..|pages| - 1], item);
      assert pages == pages[..|pages| - 1] + [pages[|pages| - 1]];
    }
  }

  function SortKey(d: Dict): string {
    if RuleId in d then Show(d[RuleId]) else ""
  }

  /** Python's order on strings. */
  predicate AtMost(a: string, b: string) {
    a == "" || (b != "" && (a[0] < b[0] || (a[0] == b[0] && AtMost(a[1..], b[1..]))))
  }

  function Insert(x: Dict, s: seq<Dict>): seq<Dict> {
    if s == [] || AtMost(SortKey(s[|s| - 1]), SortKey(x)) then s + [x]
    else Insert(x, s[..|s| - 1]) + [s[|s| - 1]]
  }

  /** A stable sort by rule id. */
  function Sorted(s: seq<Dict>): seq<Dict> {
    if s == [] then [] else Insert(s[|s| - 1], Sorted(s[..|s| - 1]))
  }

  /** The order is that of the first place where two strings differ; a proper prefix comes first. */
  lemma {:induction false} AtMostMeaning(a: string, b: string)
    ensures AtMost(a, b) <==> a <= b || exists k :: 0 <= k && DiffersAt(a, b, k)
  {
    if a != "" && b != "" && a[0] == b[0] {
      var rest, other := a[1..], b[1..];
      AtMostMeaning(rest, other);
      assert a == [a[0]] + rest && b == [b[0]] + other;
      if k :| 0 <= k && DiffersAt(rest, other, k) {
        DiffersNext(a, b, k);
        assert DiffersAt(a, b, k + 1);
      }
      if k :| 0 <= k && DiffersAt(a, b, k) {
        DiffersNext(a, b, k - 1);
        assert DiffersAt(rest, other, k - 1);
      }
    } else if a != "" && b != "" && a[0] < b[0] {
      assert DiffersAt(a, b, 0);
    }
  }

  lemma DiffersNext(a: string, b: string, k: nat)
    requires a != "" && b != "" && a[0] == b[0]
    ensures DiffersAt(a[1..], b[1..], k) <==> DiffersAt(a, b, k + 1)
  {
    if k + 1 < |a| && k + 1 < |b| {
      assert a[..k + 1] == [a[0]] + a[1..][..k] && b[..k + 1] == [b[0]] + b[1..][..k];
      if a[..k + 1] == b[..k + 1] {
        assert a[1..][..k] == a[..k + 1][1..] && b[1..][..k] == b[..k + 1][1..];
      }
    }
  }

  predicate DiffersAt(a: string, b: string, k: nat) {
    k < |a| && k < |b| && a[..k] == b[..k] && a[k] < b[k]
  }

  lemma {:induction false} AtMostTransitive(a: string, b: string, c: string)
    requires AtMost(a, b) && AtMost(b, c)
    ensures AtMost(a, c)
  {
    if a != "" && a[0] == b[0] == c[0] {
      AtMostTransitive(a[1..], b[1..], c[1..]);
    }
  }

  lemma {:induction false} AtMostTotal(a: string, b: string)
    ensures AtMost(a, b) || AtMost(b, a)
  {
    if a != "" && b != "" && a[0] == b[0] {
      AtMostTotal(a[1..], b[1..]);
    }
  }

  ghost predicate InOrder(s: seq<Dict>) {
    forall i, j :: 0 <= i < j < |s| ==> AtMost(SortKey(s[i]), SortKey(s[j]))
  }

  /** Something at the end that no key exceeds keeps the order. */
  lemma InOrderEnd(s: seq<Dict>, x: Dict)
    requires InOrder(s) && forall d :: d in s ==> AtMost(SortKey(d), SortKey(x))
    ensures InOrder(s + [x])
  {}

  lemma {:induction false} InsertInOrder(x: Dict, s: seq<Dict>)
    requires InOrder(s)
    ensures InOrder(Insert(x, s))
  {
    if s != [] {
      var init, last := s[..|s| - 1], s[|s| - 1];
      if AtMost(SortKey(last), SortKey(x)) {
        forall d | d in s ensures AtMost(SortKey(d), SortKey(x)) {
          if d != last {
            AtMostTransitive(SortKey(d), SortKey(last), SortKey(x));
          }
        }
        InOrderEnd(s, x);
      } else {
        InsertInOrder(x, init);
        AtMostTotal(SortKey(last), SortKey(x));
        forall d | d in Insert(x, init) ensures AtMost(SortKey(d), SortKey(last)) {
          InsertMembers(x, init, d);
        }
        InOrderEnd(Insert(x, init), last);
      }
    }
  }

  lemma {:induction false} InsertCounts(x: Dict, s: seq<Dict>, d: Dict)
    ensures multiset(Insert(x, s))[d] == multiset(s)[d] + if d == x then 1 else 0
  {
    if s != [] && !AtMost(SortKey(s[|s| - 1]), SortKey(x)) {
      var init, last := s[..|s| - 1], s[|s| - 1];
      InsertCounts(x, init, d);
      assert s == init + [last];
    }
  }

  lemma {:induction false} SortedCounts(s: seq<Dict>, d: Dict)
    ensures multiset(Sorted(s))[d] == multiset(s)[d]
  {
    if s != [] {
      var init, last := s[..|s| - 1], s[|s| - 1];
      SortedCounts(init, d);
      InsertCounts(last, Sorted(init), d);
      assert s == init + [last];
    }
  }

  /** The ids as text, none counting as empty, rise. */
  ghost predicate IdsRise(s: seq<Dict>) {
    forall i, j :: 0 <= i < j < |s| ==> AtMost(IdText(Get(s[i], RuleId)), IdText(Get(s[j], RuleId)))
  }

  function IdText(id: Option<Value>): string {
    match id case Some(v) => Show(v) case None => ""
  }

  /** Sorting by id: a permutation in the order of the ids. */
  lemma {:induction false} SortedCorrect(s: seq<Dict>)
    ensures InOrder(Sorted(s)) && IdsRise(Sorted(s)) && multiset(Sorted(s)) == multiset(s)
  {
    if s != [] {
      SortedCorrect(s[..|s| - 1]);
      InsertInOrder(s[|s| - 1], Sorted(s[..|s| - 1]));
    }
    forall d ensures multiset(Sorted(s))[d] == multiset(s)[d] {
      SortedCounts(s, d);
    }
  }

  /** The rules read are, in their normal form, the elements of any page that are rules of the group. */
  lemma RulesReadMembers(pages: seq<seq<Item>>, groupId: string, d: Dict)
    ensures d in Sorted(Listed(Flatten(pages), groupId))
            <==> exists page, item :: page in pages && item in page && item.Object?
                   && Get(item.fields, GroupId) == Some(Text(groupId)) && d == Normalize(item.fields)
  {
    SortedMembers(Listed(Flatten(pages), groupId), d);
    ListedMembers(Flatten(pages), groupId, d);
    forall item ensures item in Flatten(pages) <==> exists page :: page in pages && item in page {
      FlattenMembers(pages, item);
    }
  }

  method AddPage(found: seq<Dict>, page: seq<Item>, groupId: string, ghost before: seq<Item>) returns (rules: seq<Dict>)
    requires found == Listed(before, groupId)
    ensures rules == Listed(before + page, groupId)
  {
    rules := found;
    assert before + page[..0] == before;
    for i := 0 to |page|
      invariant rules == Listed(before + page[..i], groupId)
    {
      assert (before + page[..i + 1])[..|before| + i] == before + page[..i];
      if OfGroup(page[i], groupId) {
        rules := rules + [Normalize(page[i].fields)];
      }
    }
    assert page[..|page|] == page;
  }

  method SecurityGroupRules(pages: seq<seq<Item>>, groupId: string) returns (rules: seq<Dict>)
    ensures rules == Sorted(Listed(Flatten(pages), groupId))
  {
    var found := [];
    for p := 0 to |pages|
      invariant found == Listed(Flatten(pages[..p]), groupId)
    {
      assert pages[..p + 1][..p] == pages[..p];
      found := AddPage(found, pages[p], groupId, Flatten(pages[..p]));
    }
    assert pages[..|pages|] == pages;
    return Sorted(found);
  }

  /** The rule's name in the comparison of unrelated rules. */
  function Name(d: Dict): string {
    if RuleId in d then Show(d[RuleId]) else "None"
  }

  /** The dictionary built from a list of rules: the last of a name wins. */
  function Keyed(rules: seq<Dict>): map<string, Dict> {
    if rules == [] then map[]
    else
      var last := rules[|rules| - 1];
      Keyed(rules[..|rules| - 1])[Name(last) := last]
  }

  predicate HasId(d: Dict, id: Option<Value>) { Get(d, RuleId) == id }

  function Current(rules: seq<Dict>, id: Option<Value>): Option<Dict> {
    if rules == [] then None else if HasId(rules[0], id) then Some(rules[0]) else Current(rules[1..], id)
  }

  function Without(rules: seq<Dict>, id: Option<Value>): seq<Dict> {
    if rules == [] then []
    else
      var last := rules[|rules| - 1];
      Without(rules[..|rules| - 1], id) + if HasId(last, id) then [] else [last]
  }

  /** The current rule is the first that carries the id. */
  lemma {:induction false} CurrentMeaning(rules: seq<Dict>, id: Option<Value>, d: Dict)
    ensures Current(rules, id) == Some(d)
            <==> exists i :: 0 <= i < |rules| && rules[i] == d && Get(d, RuleId) == id
                   && forall j :: 0 <= j < i ==> Get(rules[j], RuleId) != id
  {
    if rules != [] && Get(rules[0], RuleId) != id {
      var rest := rules[1..];
      CurrentMeaning(rest, id, d);
      if Current(rest, id) == Some(d) {
        var i :| 0 <= i < |rest| && rest[i] == d && Get(d, RuleId) == id && forall j :: 0 <= j < i ==> Get(rest[j], RuleId) != id;
        assert rules[i + 1] == d && forall j :: 0 < j < i + 1 ==> rules[j] == rest[j - 1];
      }
      if i :| 0 <= i < |rules| && rules[i] == d && Get(d, RuleId) == id && forall j :: 0 <= j < i ==> Get(rules[j], RuleId) != id {
        assert rest[i - 1] == d && forall j :: 0 <= j < |rest| ==> rest[j] == rules[j + 1];
      }
    }
  }

  /** The rule i is the last of its name. */
  predicate LastNamed(rules: seq<Dict>, i: nat, name: string) {
    i < |rules| && RuleName(rules[i]) == name && forall j :: i < j < |rules| ==> RuleName(rules[j]) != name
  }

  function RuleName(d: Dict): string {
    match Get(d, RuleId) case Some(v) => Show(v) case None => "None"
  }

  /** A name stands for the last rule that carries it. */
  lemma {:induction false} KeyedMeaning(rules: seq<Dict>, name: string, d: Dict)
    ensures name in Keyed(rules) && Keyed(rules)[name] == d <==> exists i :: 0 <= i && LastNamed(rules, i, name) && rules[i] == d
  {
    if rules != [] {
      var init, last := rules[..|rules| - 1], rules[|rules| - 1];
      KeyedMeaning(init, name, d);
      if RuleName(last) == name {
        assert LastNamed(rules, |init|, name);
      } else {
        assert forall i :: 0 <= i < |init| ==> (LastNamed(rules, i, name) <==> LastNamed(init, i, name));
      }
    }
  }

  lemma {:induction false} InsertKeyed(x: Dict, s: seq<Dict>)
    requires RuleId in x && forall i :: 0 <= i < |s| ==> RuleId in s[i]
    ensures Keyed(Insert(x, s)) == Keyed(s)[Name(x) := x]
  {
    if s == [] || AtMost(SortKey(s[|s| - 1]), SortKey(x)) {
      assert (s + [x])[..|s|] == s;
    } else {
      var init, last := s[..|s| - 1], s[|s| - 1];
      InsertKeyed(x, init);
      AtMostReflexive(SortKey(x));
      assert Name(last) != Name(x);
      assert Insert(x, s) == Insert(x, init) + [last];
      assert Keyed(Insert(x, init) + [last]) == Keyed(Insert(x, init))[Name(last) := last] by {
        assert (Insert(x, init) + [last])[..|Insert(x, init)|] == Insert(x, init);
      }
    }
  }

  lemma {:induction false} AtMostReflexive(a: string)
    ensures AtMost(a, a)
  {
    if a != "" {
      AtMostReflexive(a[1..]);
    }
  }

  /** Sorting does not change which rule a name stands for. */
  lemma {:induction false} SortedKeyed(s: seq<Dict>)
    requires forall d :: d in s ==> RuleId in d
    ensures Keyed(Sorted(s)) == Keyed(s)
  {
    if s != [] {
      var init, last := s[..|s| - 1], s[|s| - 1];
      SortedKeyed(init);
      forall i | 0 <= i < |Sorted(init)| ensures RuleId in Sorted(init)[i] {
        SortedMembers(init, Sorted(init)[i]);
      }
      InsertKeyed(last, Sorted(init));
    }
  }

  /** Leaving out an id touches no other name. */
  lemma {:induction false} WithoutKeyed(rules: seq<Dict>, id: Option<Value>, name: string)
    requires forall d: Dict :: HasId(d, id) ==> Name(d) != name
    ensures name in Keyed(rules) <==> name in Keyed(Without(rules, id))
    ensures name in Keyed(rules) ==> Keyed(rules)[name] == Keyed(Without(rules, id))[name]
  {
    if rules != [] {
      var init, last := rules[..|rules| - 1], rules[|rules| - 1];
      WithoutKeyed(init, id, name);
      if HasId(last, id) {
        assert Without(rules, id) == Without(init, id);
      } else {
        assert Without(rules, id)[..|Without(rules, id)| - 1] == Without(init, id);
      }
    }
  }

  lemma {:induction false} CurrentIsNamed(rules: seq<Dict>, id: Option<Value>)
    requires Current(rules, id).Some?
    ensures HasId(Current(rules, id).value, id) && Current(rules, id).value in rules
    ensures Name(Current(rules, id).value) in Keyed(rules)
  {
    if HasId(rules[0], id) {
      InKeyed(rules, 0);
    } else {
      CurrentIsNamed(rules[1..], id);
      var i :| 0 <= i < |rules[1..]| && rules[1..][i] == Current(rules, id).value;
      InKeyed(rules, i + 1);
    }
  }

  lemma {:induction false} InKeyed(rules: seq<Dict>, i: nat)
    requires i < |rules|
    ensures Name(rules[i]) in Keyed(rules)
  {
    if i < |rules| - 1 {
      InKeyed(rules[..|rules| - 1], i);
    }
  }

  /** What success established about the rules read before and after. */
  ghost predicate OnlyRemoved(before: seq<Dict>, after: seq<Dict>, approved: Dict) {
    && Current(before, Get(approved, RuleId)) == Some(approved)
    && (forall i :: 0 <= i < |after| ==> !HasId(after[i], Get(approved, RuleId)))
    && Keyed(Without(before, Get(approved, RuleId))) == Keyed(after)
  }

  /** Re-adding the reported rollback rule restores the rules read before exactly when the last rule
      read under its id is the approved one, as it is when ids are distinct. */
  lemma RollbackRestoresIff(before: seq<Dict>, after: seq<Dict>, approved: Dict)
    requires OnlyRemoved(before, after, approved)
    ensures Name(approved) in Keyed(before)
    ensures Keyed(before) == Keyed(after)[Name(approved) := approved] <==> Keyed(before)[Name(approved)] == approved
  {
    var id, name := Get(approved, RuleId), Name(approved);
    CurrentIsNamed(before, id);
    forall k | k != name
      ensures k in Keyed(before) <==> k in Keyed(after)
      ensures k in Keyed(before) ==> Keyed(before)[k] == Keyed(after)[k]
    {
      WithoutKeyed(before, id, k);
    }
  }

  predicate DistinctNames(rules: seq<Dict>) {
    forall i, j :: 0 <= i < j < |rules| ==> Name(rules[i]) != Name(rules[j])
  }

  lemma {:induction false} KeyedDistinct(rules: seq<Dict>, i: nat)
    requires DistinctNames(rules) && i < |rules|
    ensures Name(rules[i]) in Keyed(rules) && Keyed(rules)[Name(rules[i])] == rules[i]
  {
    if i < |rules| - 1 {
      KeyedDistinct(rules[..|rules| - 1], i);
    }
  }

  lemma {:induction false} KeyedSource(rules: seq<Dict>, name: string)
    requires name in Keyed(rules)
    ensures exists i :: 0 <= i < |rules| && Name(rules[i]) == name
  {
    var init, last := rules[..|rules| - 1], rules[|rules| - 1];
    if Name(last) != name {
      KeyedSource(init, name);
      var i :| 0 <= i < |init| && Name(init[i]) == name;
      assert rules[i] == init[i];
    }
  }

  lemma {:induction false} WithoutKeeps(rules: seq<Dict>, id: Option<Value>)
    ensures forall i :: 0 <= i < |Without(rules, id)| ==> Without(rules, id)[i] in rules && !HasId(Without(rules, id)[i], id)
  {
    if rules != [] {
      WithoutKeeps(rules[..|rules| - 1], id);
    }
  }

  lemma NamesApart(rules: seq<Dict>, a: Dict, b: Dict)
    requires DistinctNames(rules) && a in rules && b in rules && a != b
    ensures Name(a) != Name(b)
  {
    var i :| 0 <= i < |rules| && rules[i] == a;
    var j :| 0 <= j < |rules| && rules[j] == b;
  }

  lemma {:induction false} InsertMembers(x: Dict, s: seq<Dict>, d: Dict)
    ensures d in Insert(x, s) <==> d == x || d in s
  {
    if s == [] || AtMost(SortKey(s[|s| - 1]), SortKey(x)) {
    } else {
      InsertMembers(x, s[..|s| - 1], d);
      assert s == s[..|s| - 1] + [s[|s| - 1]];
    }
  }

  lemma {:induction false} SortedMembers(s: seq<Dict>, d: Dict)
    ensures d in Sorted(s) <==> d in s
  {
    if s != [] {
      var init, last := s[..|s| - 1], s[|s| - 1];
      SortedMembers(init, d);
      InsertMembers(last, Sorted(init), d);
      assert s == init + [last];
    }
  }

  /** With the distinct ids AWS gives its rules: what it listed first is what it listed last plus the approved rule. */
  lemma RevocationRoundTrip(first: seq<Dict>, second: seq<Dict>, approved: Dict)
    requires OnlyRemoved(Sorted(first), Sorted(second), approved)
    requires DistinctNames(first) && forall d :: d in first || d in second ==> RuleId in d
    ensures Name(approved) !in Keyed(second)
    ensures Keyed(first) == Keyed(second)[Name(approved) := approved]
  {
    SortedKeyed(first);
    SortedKeyed(second);
    CurrentIsNamed(Sorted(first), Get(approved, RuleId));
    SortedMembers(first, approved);
    var i :| 0 <= i < |first| && first[i] == approved;
    KeyedDistinct(first, i);
    RollbackRestoresIff(Sorted(first), Sorted(second), approved);
    NamedOnce(first, second, approved);
  }

  lemma NamedOnce(first: seq<Dict>, second: seq<Dict>, approved: Dict)
    requires OnlyRemoved(Sorted(first), Sorted(second), approved)
    requires DistinctNames(first) && approved in first && forall d :: d in first || d in second ==> RuleId in d
    ensures Name(approved) !in Keyed(second)
  {
    var id, name := Get(approved, RuleId), Name(approved);
    SortedKeyed(second);
    var left := Without(Sorted(first), id);
    WithoutKeeps(Sorted(first), id);
    forall i | 0 <= i < |left| ensures Name(left[i]) != name {
      SortedMembers(first, left[i]);
      NamesApart(first, left[i], approved);
    }
    if name in Keyed(left) {
      KeyedSource(left, name);
    }
  }

  // ---- Talking to AWS -----------------------------------------------------------------------------

  datatype Reply<+T> = Ok(value: T) | Raises(why: Refusal)
  datatype ApiCall =
    | DescribeGroups(group: string) | DescribeRules(group: string) | Revoke(group: string, rule: string)
    | GetTags(bucket: string) | GetBlock(bucket: string) | PutBlock(bucket: string, config: Block)

  datatype TagItem = Tag(key: string, value: string) | Keyless
  datatype Group = Group(id: Option<string>, vpc: Option<string>, tags: seq<TagItem>)

  const REQUIRED_TAGS: map<string, string> :=
    map["CloudOpsLab" := "true", "Environment" := "cloudops-test", "AllowCloudOpsRemediation" := "true"]

  /** Later tags of a key replace earlier ones. */
  function TagMap(items: seq<TagItem>): map<string, string> {
    if items == [] then map[]
    else
      var last := items[|items| - 1];
      var tags := TagMap(items[..|items| - 1]);
      if last.Tag? then tags[last.key := last.value] else tags
  }

  predicate TagsOk(items: seq<TagItem>) {
    forall key :: key in REQUIRED_TAGS ==> key in TagMap(items) && TagMap(items)[key] == REQUIRED_TAGS[key]
  }

  /** The item i is the last tag of this key, with this value. */
  predicate LastTagAt(items: seq<TagItem>, i: nat, key: string, value: string) {
    i < |items| && items[i] == Tag(key, value) && forall j :: i < j < |items| && items[j].Tag? ==> items[j].key != key
  }

  ghost predicate LastTag(items: seq<TagItem>, key: string, value: string) {
    exists i :: 0 <= i && LastTagAt(items, i, key, value)
  }

  lemma LastTagNext(init: seq<TagItem>, last: TagItem, i: nat, key: string, value: string)
    ensures LastTagAt(init + [last], i, key, value)
            <==> if i == |init| then last == Tag(key, value) else LastTagAt(init, i, key, value) && !(last.Tag? && last.key == key)
  {
    if i < |init| {
      assert (init + [last])[|init|] == last;
      if LastTagAt(init + [last], i, key, value) {
        assert forall j :: i < j < |init| ==> init[j] == (init + [last])[j];
      }
    }
  }

  /** The last tag of a key counts. */
  lemma {:induction false} TagMapMeaning(items: seq<TagItem>, key: string, value: string)
    ensures key in TagMap(items) && TagMap(items)[key] == value <==> LastTag(items, key, value)
  {
    if items != [] {
      var init, last := items[..|items| - 1], items[|items| - 1];
      TagMapMeaning(init, key, value);
      assert items == init + [last];
      forall i: nat ensures LastTagAt(items, i, key, value)
        <==> if i == |init| then last == Tag(key, value) else LastTagAt(init, i, key, value) && !(last.Tag? && last.key == key)
      {
        LastTagNext(init, last, i, key, value);
      }
      if last == Tag(key, value) {
        assert LastTagAt(items, |init|, key, value);
      }
    }
  }

  /** A resource may be changed only if its three tags say so. */
  lemma TagsMeaning(items: seq<TagItem>)
    ensures TagsOk(items) <==> LastTag(items, "CloudOpsLab", "true") && LastTag(items, "Environment", "cloudops-test")
                                 && LastTag(items, "AllowCloudOpsRemediation", "true")
  {
    TagMapMeaning(items, "CloudOpsLab", "true");
    TagMapMeaning(items, "Environment", "cloudops-test");
    TagMapMeaning(items, "AllowCloudOpsRemediation", "true");
  }

  /** AWS: each call is answered from outside, whatever happened between the calls. calls is the record of them. */
  class Ec2Client {
    const groups: Reply<seq<Group>>
    const listings: nat -> Reply<seq<seq<Item>>>
    const revoked: Reply<()>
    var listed: nat
    var calls: seq<ApiCall>

    method DescribeSecurityGroups(groupId: string) returns (reply: Reply<seq<Group>>)
      modifies `calls
      ensures reply == groups && calls == old(calls) + [DescribeGroups(groupId)]
    {
      calls := calls + [DescribeGroups(groupId)];
      return groups;
    }

    method DescribeSecurityGroupRules(groupId: string) returns (reply: Reply<seq<Dict>>)
      modifies this
      ensures reply == RulesRead(old(listed), groupId)
      ensures listed == old(listed) + 1 && calls == old(calls) + [DescribeRules(groupId)]
    {
      calls := calls + [DescribeRules(groupId)];
      var pages := listings(listed);
      listed := listed + 1;
      if pages.Raises? { return Raises(pages.why); }
      var rules := SecurityGroupRules(pages.value, groupId);
      return Ok(rules);
    }

    method RevokeSecurityGroupIngress(groupId: string, ruleId: string) returns (reply: Reply<()>)
      modifies `calls
      ensures reply == revoked && calls == old(calls) + [Revoke(groupId, ruleId)]
    {
      calls := calls + [Revoke(groupId, ruleId)];
      return revoked;
    }

    /** The rules of the n-th listing, as the executor keeps them. */
    function RulesRead(n: nat, groupId: string): Reply<seq<Dict>> {
      match listings(n)
      case Raises(why) => Raises(why)
      case Ok(pages) => Ok(Sorted(Listed(Flatten(pages), groupId)))
    }

    /** Everything that must hold of the evidence and of the first two answers before AWS may be changed. */
    ghost predicate MayRevoke(context: Context) {
      var id := context.asset.resourceId;
      && context.asset.kind.SecurityGroup?
      && groups.Ok? && |groups.value| == 1
      && groups.value[0].id == Some(id) && groups.value[0].vpc == context.asset.vpc && TagsOk(groups.value[0].tags)
      && ApprovedRule(context).Approved?
      && RulesRead(0, id).Ok?
      && var rule := ApprovedRule(context).rule; Current(RulesRead(0, id).value, Get(rule, RuleId)) == Some(rule)
    }

    /** The first of these that fails is the one reported. */
    ghost function FirstFailure(context: Context): Refusal
      requires !MayRevoke(context)
    {
      if !context.asset.kind.SecurityGroup? then TypeMismatch
      else if groups.Raises? then groups.why
      else if |groups.value| != 1 then GroupNotFound
      else if groups.value[0].id != Some(context.asset.resourceId) then ResourceMismatch
      else if groups.value[0].vpc != context.asset.vpc then Drift
      else if !TagsOk(groups.value[0].tags) then TagsMissing
      else if ApprovedRule(context).Refused? then ApprovedRule(context).why
      else if RulesRead(0, context.asset.resourceId).Raises? then RulesRead(0, context.asset.resourceId).why
      else Drift
    }

    /** What a revocation that was sent can still report instead of success. */
    ghost function LateFailure(context: Context): Refusal {
      var id := context.asset.resourceId;
      if revoked.Raises? then revoked.why
      else if RulesRead(1, id).Raises? then RulesRead(1, id).why
      else if ApprovedRule(context).Approved? && StillThere(RulesRead(1, id).value, ApprovedRule(context).rule) then VerificationFailed
      else UnrelatedChanged
    }
  }

  predicate StillThere(rules: seq<Dict>, approved: Dict) {
    exists i :: 0 <= i < |rules| && HasId(rules[i], Get(approved, RuleId))
  }

  datatype Report<T> = Report(before: T, rollback: T)

  /** The calls of a complete run, in order. */
  function Plan(groupId: string, rule: Dict): seq<ApiCall>
    requires RuleId in rule
  {
    [DescribeGroups(groupId), DescribeRules(groupId), Revoke(groupId, Show(rule[RuleId])), DescribeRules(groupId)]
  }

  /** The checks of _ec2_revoke_ingress, up to the drift check: the approved rule and the rules read. */
  method CheckedRule(context: Context, client: Ec2Client) returns (result: Reply<(Dict, seq<Dict>)>)
    requires client.calls == [] && client.listed == 0
    modifies client
    ensures client.calls <= [DescribeGroups(context.asset.resourceId), DescribeRules(context.asset.resourceId)]
    ensures result.Ok? <==> client.MayRevoke(context)
    ensures result.Raises? ==> result.why == client.FirstFailure(context)
    ensures result.Ok? ==> |client.calls| == 2 && client.listed == 1
    ensures result.Ok? ==> result.value == (ApprovedRule(context).rule, client.RulesRead(0, context.asset.resourceId).value)
  {
    if !context.asset.kind.SecurityGroup? { return Raises(TypeMismatch); }
    var groupId := context.asset.resourceId;
    var groups := client.DescribeSecurityGroups(groupId);
    if groups.Raises? { return Raises(groups.why); }
    if |groups.value| != 1 { return Raises(GroupNotFound); }
    var group := groups.value[0];
    if group.id != Some(groupId) { return Raises(ResourceMismatch); }
    if group.vpc != context.asset.vpc { return Raises(Drift); }
    if !TagsOk(group.tags) { return Raises(TagsMissing); }
    var approval := ApprovedRule(context);
    if approval.Refused? { return Raises(approval.why); }
    var before := client.DescribeSecurityGroupRules(groupId);
    if before.Raises? { return Raises(before.why); }
    if Current(before.value, Get(approval.rule, RuleId)) != Some(approval.rule) { return Raises(Drift); }
    return Ok((approval.rule, before.value));
  }

  /** _ec2_revoke_ingress: one mutating call at most, after every check, and success only when nothing else changed. */
  method RevokeIngress(context: Context, client: Ec2Client) returns (result: Reply<Report<Dict>>)
    requires client.calls == [] && client.listed == 0
    modifies client
    ensures |client.calls| < 3 ==>
              client.calls <= [DescribeGroups(context.asset.resourceId), DescribeRules(context.asset.resourceId)]
    ensures |client.calls| >= 3 <==> client.MayRevoke(context)
    ensures client.MayRevoke(context) ==> client.calls <= Plan(context.asset.resourceId, ApprovedRule(context).rule)
    ensures result.Ok? <==>
              && client.MayRevoke(context) && client.revoked.Ok? && client.RulesRead(1, context.asset.resourceId).Ok?
              && OnlyRemoved(client.RulesRead(0, context.asset.resourceId).value,
                             client.RulesRead(1, context.asset.resourceId).value,
                             ApprovedRule(context).rule)
    ensures result.Ok? ==> result.value == Report(ApprovedRule(context).rule, ApprovedRule(context).rule)
    ensures result.Raises? ==>
              result.why == if client.MayRevoke(context) then client.LateFailure(context) else client.FirstFailure(context)
  {
    var checked := CheckedRule(context, client);
    if checked.Raises? { return Raises(checked.why); }
    var groupId := context.asset.resourceId;
    var approved, before := checked.value.0, checked.value.1;
    var id := Get(approved, RuleId);
    assert client.calls == [DescribeGroups(groupId), DescribeRules(groupId)];
    var revoked := client.RevokeSecurityGroupIngress(groupId, Show(approved[RuleId]));
    if revoked.Raises? { return Raises(revoked.why); }
    var after := client.DescribeSecurityGroupRules(groupId);
    if after.Raises? { return Raises(after.why); }
    if StillThere(after.value, approved) { return Raises(VerificationFailed); }
    if Keyed(Without(before, id)) != Keyed(after.value) { return Raises(UnrelatedChanged); }
    return Ok(Report(approved, approved));
  }

  // ---- S3 public access block ---------------------------------------------------------------------

  datatype BlockKey = BlockPublicAcls | IgnorePublicAcls | BlockPublicPolicy | RestrictPublicBuckets
  type Block = map<BlockKey, bool>
  /** The configuration in an AWS answer or in the evidence. */
  datatype RawBlock = NoDict | Config(entries: map<BlockKey, Value>)
  datatype Evidence = Absent | Recorded(block: Block) | Unreadable

  const DESIRED: Block :=
    map[BlockPublicAcls := true, IgnorePublicAcls := true, BlockPublicPolicy := true, RestrictPublicBuckets := true]
  const NO_CONFIGURATION := Aws("NoSuchPublicAccessBlockConfiguration")

  function NormalizeBlock(raw: RawBlock): Option<Block> {
    if raw.NoDict? then None else Some(map key | key in raw.entries :: raw.entries[key] == Flag(true))
  }

  datatype BucketAsset = BucketAsset(kind: AssetType, name: string, approved: Evidence)

  class S3Client {
    const tags: Reply<seq<TagItem>>
    const blocks: nat -> Reply<RawBlock>
    const put: Reply<()>
    var blocksRead: nat
    var calls: seq<ApiCall>

    method GetBucketTagging(bucket: string) returns (reply: Reply<seq<TagItem>>)
      modifies `calls
      ensures reply == tags && calls == old(calls) + [GetTags(bucket)]
    {
      calls := calls + [GetTags(bucket)];
      return tags;
    }

    method GetPublicAccessBlock(bucket: string) returns (reply: Reply<RawBlock>)
      modifies this
      ensures reply == blocks(old(blocksRead)) && blocksRead == old(blocksRead) + 1 && calls == old(calls) + [GetBlock(bucket)]
    {
      calls := calls + [GetBlock(bucket)];
      blocksRead := blocksRead + 1;
      return blocks(blocksRead - 1);
    }

    method PutPublicAccessBlock(bucket: string, config: Block) returns (reply: Reply<()>)
      modifies `calls
      ensures reply == put && calls == old(calls) + [PutBlock(bucket, config)]
    {
      calls := calls + [PutBlock(bucket, config)];
      return put;
    }

    /** The configuration read first: AWS reports a missing one as an error. */
    function Before(): Reply<Option<Block>> {
      match blocks(0)
      case Ok(raw) => Ok(NormalizeBlock(raw))
      case Raises(why) => if why == NO_CONFIGURATION then Ok(None) else Raises(why)
    }

    ghost predicate MayPut(asset: BucketAsset) {
      && asset.kind.Bucket? && "cloudops-lab-" <= asset.name
      && tags.Ok? && TagsOk(tags.value)
      && Before().Ok?
      && asset.approved == if Before().value.None? then Absent else Recorded(Before().value.value)
    }

    /** The first of these that fails, or what a write that was sent can still report instead of success. */
    ghost function Failure(asset: BucketAsset): Refusal {
      if !asset.kind.Bucket? then TypeMismatch
      else if !("cloudops-lab-" <= asset.name) then PrefixNotAllowed
      else if tags.Raises? then tags.why
      else if !TagsOk(tags.value) then TagsMissing
      else if Before().Raises? then Before().why
      else if !MayPut(asset) then Drift
      else if put.Raises? then put.why
      else if blocks(1).Raises? then blocks(1).why
      else VerificationFailed
    }
  }

  /** All four protections, switched on. */
  lemma DesiredMeaning(key: BlockKey)
    ensures key in DESIRED && DESIRED[key]
  {}

  /** A configuration is read key by key: on only where AWS answers true itself. */
  lemma BlockMeaning(raw: RawBlock, key: BlockKey)
    ensures NormalizeBlock(raw).Some? <==> raw.Config?
    ensures raw.Config? ==> var block := NormalizeBlock(raw).value;
              (key in block <==> key in raw.entries) && (key in block ==> (block[key] <==> raw.entries[key] == Flag(true)))
  {}

  /** _s3_public_access_block */
  method BlockPublicAccess(asset: BucketAsset, client: S3Client) returns (result: Reply<Report<Option<Block>>>)
    requires client.calls == [] && client.blocksRead == 0
    modifies client
    ensures client.calls <= [GetTags(asset.name), GetBlock(asset.name), PutBlock(asset.name, DESIRED), GetBlock(asset.name)]
    ensures |client.calls| >= 3 <==> client.MayPut(asset)
    ensures result.Ok? <==> client.MayPut(asset) && client.put.Ok? && client.blocks(1).Ok?
                              && NormalizeBlock(client.blocks(1).value) == Some(DESIRED)
    ensures result.Raises? ==> result.why == client.Failure(asset)
    ensures result.Ok? ==> result.value == Report(client.Before().value, client.Before().value)
                             && asset.approved == if result.value.before.None? then Absent else Recorded(result.value.before.value)
  {
    if !asset.kind.Bucket? { return Raises(TypeMismatch); }
    if !("cloudops-lab-" <= asset.name) { return Raises(PrefixNotAllowed); }
    var tags := client.GetBucketTagging(asset.name);
    if tags.Raises? { return Raises(tags.why); }
    if !TagsOk(tags.value) { return Raises(TagsMissing); }
    var before: Option<Block> := None;
    var read := client.GetPublicAccessBlock(asset.name);
    if read.Ok? {
      before := NormalizeBlock(read.value);
    } else if read.why != NO_CONFIGURATION {
      return Raises(read.why);
    }
    if asset.approved != (if before.None? then Absent else Recorded(before.value)) { return Raises(Drift); }
    var put := client.PutPublicAccessBlock(asset.name, DESIRED);
    if put.Raises? { return Raises(put.why); }
    var verified := client.GetPublicAccessBlock(asset.name);
    if verified.Raises? { return Raises(verified.why); }
    if NormalizeBlock(verified.value) != Some(DESIRED) { return Raises(VerificationFailed); }
    return Ok(Report(before, before));
  }
}
