/** Inventory reconciliation (services/discovery.py, repositories/assets.py): upsert what a collector returned, deactivate
    what it no longer returns, roll back a collector that fails. */
module Discovery {
  import opened Prelude

  datatype AssetType =
    | Ec2Instance | Ec2SecurityGroup | EbsVolume
    | S3Bucket
    | IamUser | IamRole | IamGroup | IamPolicy
    | RdsInstance
    | CloudwatchAlarm | CloudwatchLogGroup
    | CloudtrailTrail

  type AccountId = nat
  /** The table's unique key. */
  datatype Identity = Identity(account: AccountId, kind: AssetType, resource: string)
  datatype Details = Details(arn: Option<string>, name: string, region: string, status: Option<string>,
                             tags: map<string, string>, metadata: string)
  datatype Item = Item(kind: AssetType, resource: string, details: Details)
  datatype Row = Row(details: Details, firstSeen: int, lastSeen: int, active: bool)
  type Table = map<Identity, Row>

  function Key(account: AccountId, item: Item): Identity {
    Identity(account, item.kind, item.resource)
  }

  function Lookup(table: Table, id: Identity): Option<Row> {
    if id in table then Some(table[id]) else None
  }

  function Touch(stored: Option<Row>, item: Item, at: int): Row {
    Row(item.details, if stored.None? then at else stored.value.firstSeen, at, true)
  }

  // ---- One collector ------------------------------------------------------------------------------

  function ApplyItems(table: Table, account: AccountId, items: seq<Item>, at: int): Table {
    if items == [] then table
    else
      var done := ApplyItems(table, account, items[..|items| - 1], at);
      var item := items[|items| - 1];
      done[Key(account, item) := Touch(Lookup(done, Key(account, item)), item, at)]
  }

  function Seen(account: AccountId, items: seq<Item>): set<Identity> {
    set item | item in items :: Key(account, item)
  }

  /** Active assets of the account and types that the collector did not return. */
  function Vanished(table: Table, account: AccountId, types: set<AssetType>, seen: set<Identity>): set<Identity> {
    set id | id in table && id.account == account && id.kind in types && table[id].active && id !in seen
  }

  function Deactivate(table: Table, gone: set<Identity>): Table {
    map id | id in table :: if id in gone then table[id].(active := false) else table[id]
  }

  function Upserted(table: Table, account: AccountId, items: seq<Item>, types: set<AssetType>, at: int): Table {
    Deactivate(ApplyItems(table, account, items, at), Vanished(table, account, types, Seen(account, items)))
  }

  function CountNew(table: Table, account: AccountId, items: seq<Item>): nat {
    if items == [] then 0
    else CountNew(table, account, items[..|items| - 1]) + if Key(account, items[|items| - 1]) in table then 0 else 1
  }

  /** Returned items whose identity was stored before, each counted. */
  function CountKnown(table: Table, account: AccountId, items: seq<Item>): nat {
    if items == [] then 0
    else CountKnown(table, account, items[..|items| - 1]) + if Key(account, items[|items| - 1]) in table then 1 else 0
  }

  /** Two returned items with one identity that is not stored yet would be inserted twice, which the unique key refuses. */
  predicate Collides(table: Table, account: AccountId, items: seq<Item>) {
    exists i, j :: 0 <= i < j < |items| && InsertedTwice(table, account, items[i], items[j])
  }

  predicate InsertedTwice(table: Table, account: AccountId, a: Item, b: Item) {
    Key(account, a) == Key(account, b) && Key(account, a) !in table
  }

  function LastHit(items: seq<Item>, account: AccountId, id: Identity): Option<Item> {
    if items == [] then None
    else if Key(account, items[|items| - 1]) == id then Some(items[|items| - 1])
    else LastHit(items[..|items| - 1], account, id)
  }

  /** What one collector leaves under one identity. */
  function RowAfter(table: Table, account: AccountId, items: seq<Item>, types: set<AssetType>, at: int, id: Identity)
    : Option<Row>
  {
    match LastHit(items, account, id)
    case Some(item) => Some(Touch(Lookup(table, id), item, at))
    case None =>
      if id in table && id.account == account && id.kind in types then Some(table[id].(active := false))
      else Lookup(table, id)
  }

  lemma {:induction false} ApplyItemsPointwise(table: Table, account: AccountId, items: seq<Item>, at: int, id: Identity)
    ensures Lookup(ApplyItems(table, account, items, at), id)
            == match LastHit(items, account, id)
               case Some(item) => Some(Touch(Lookup(table, id), item, at))
               case None => Lookup(table, id)
    ensures LastHit(items, account, id).Some? <==> id in Seen(account, items)
  {
    if items != [] {
      var init, last := items[..|items| - 1], items[|items| - 1];
      ApplyItemsPointwise(table, account, init, at, id);
      assert Seen(account, items) == Seen(account, init) + {Key(account, last)} by {
        assert items == init + [last];
      }
    }
  }

  /** A collector's reconciliation, identity by identity. */
  lemma UpsertedPointwise(table: Table, account: AccountId, items: seq<Item>, types: set<AssetType>, at: int, id: Identity)
    ensures Lookup(Upserted(table, account, items, types, at), id) == RowAfter(table, account, items, types, at, id)
  {
    ApplyItemsPointwise(table, account, items, at, id);
  }

  ghost function ActiveOf(table: Table, account: AccountId, types: set<AssetType>): set<Identity> {
    set id | id in table && id.account == account && id.kind in types && table[id].active
  }

  ghost predicate Typed(items: seq<Item>, types: set<AssetType>) {
    forall item :: item in items ==> item.kind in types
  }

  /** Afterwards the account's active assets of the collector's types are exactly what it returned;
      everything else is untouched. */
  lemma ReconcilesExactly(table: Table, account: AccountId, items: seq<Item>, types: set<AssetType>, at: int)
    requires Typed(items, types)
    ensures ActiveOf(Upserted(table, account, items, types, at), account, types) == Seen(account, items)
    ensures forall id: Identity :: id.account != account || id.kind !in types ==>
              Lookup(Upserted(table, account, items, types, at), id) == Lookup(table, id)
  {
    var after := Upserted(table, account, items, types, at);
    forall id ensures id in ActiveOf(after, account, types) <==> id in Seen(account, items) {
      UpsertedPointwise(table, account, items, types, at, id);
      ApplyItemsPointwise(table, account, items, at, id);
    }
    forall id: Identity | id.account != account || id.kind !in types ensures Lookup(after, id) == Lookup(table, id) {
      UpsertedPointwise(table, account, items, types, at, id);
      ApplyItemsPointwise(table, account, items, at, id);
    }
  }

  /** The i-th item is the last one returned for this identity. */
  predicate LastOf(items: seq<Item>, account: AccountId, i: nat, id: Identity) {
    && i < |items| && id == Identity(account, items[i].kind, items[i].resource)
    && forall j :: i < j < |items| ==> items[j].kind != id.kind || items[j].resource != id.resource
  }

  lemma {:induction false} LastHitIs(items: seq<Item>, account: AccountId, i: nat, id: Identity)
    requires LastOf(items, account, i, id)
    ensures LastHit(items, account, id) == Some(items[i])
  {
    if i < |items| - 1 {
      LastHitIs(items[..|items| - 1], account, i, id);
    }
  }

  /** A returned asset takes the details last returned, is active and seen now, and keeps the time it was first seen. */
  lemma ReturnedRow(table: Table, account: AccountId, items: seq<Item>, types: set<AssetType>, at: int, i: nat, id: Identity)
    requires LastOf(items, account, i, id)
    ensures Lookup(Upserted(table, account, items, types, at), id)
            == Some(Row(items[i].details, if id in table then table[id].firstSeen else at, at, true))
  {
    LastHitIs(items, account, i, id);
    UpsertedPointwise(table, account, items, types, at, id);
  }

  /** A stored asset of the collector's types that was not returned only becomes inactive. */
  lemma VanishedRow(table: Table, account: AccountId, items: seq<Item>, types: set<AssetType>, at: int, id: Identity)
    requires id in table && id.account == account && id.kind in types
    requires forall item :: item in items ==> item.kind != id.kind || item.resource != id.resource
    ensures Lookup(Upserted(table, account, items, types, at), id) == Some(table[id].(active := false))
  {
    NoHit(items, account, id);
    UpsertedPointwise(table, account, items, types, at, id);
  }

  lemma {:induction false} NoHit(items: seq<Item>, account: AccountId, id: Identity)
    requires forall item :: item in items ==> item.kind != id.kind || item.resource != id.resource
    ensures LastHit(items, account, id) == None
  {
    if items != [] {
      assert items[|items| - 1] in items;
      NoHit(items[..|items| - 1], account, id);
    }
  }

  // ---- A whole run ------------------------------------------------------------------------------------

  /** A collector with its answer: None when it raised. */
  datatype Collector = Collector(types: set<AssetType>, answer: Option<Answer>)
  datatype Answer = Answer(items: seq<Item>, at: int)

  datatype Job = Job(discovered: nat, created: nat, updated: nat, deactivated: nat)
  datatype JobStatus = Completed | PartiallyCompleted | Failed

  predicate Succeeds(table: Table, account: AccountId, c: Collector) {
    c.answer.Some? && !Collides(table, account, c.answer.value.items)
  }

  function StepTable(table: Table, account: AccountId, c: Collector): Table {
    if Succeeds(table, account, c) then Upserted(table, account, c.answer.value.items, c.types, c.answer.value.at) else table
  }

  function StepJob(job: Job, table: Table, account: AccountId, c: Collector): Job {
    if !Succeeds(table, account, c) then job
    else
      var items := c.answer.value.items;
      Job(job.discovered + |items|, job.created + CountNew(table, account, items),
          job.updated + CountKnown(table, account, items),
          job.deactivated + |Vanished(table, account, c.types, Seen(account, items))|)
  }

  /** A collector succeeds unless it raised or returned two items of one identity that was not stored. */
  lemma SucceedsIff(table: Table, account: AccountId, c: Collector)
    ensures Succeeds(table, account, c)
            <==> c.answer.Some? && !exists i, j :: 0 <= i < j < |c.answer.value.items| && Twice(table, account, c.answer.value.items, i, j)
  {
    if c.answer.Some? {
      var items := c.answer.value.items;
      assert forall i, j :: 0 <= i < j < |items| ==>
               (InsertedTwice(table, account, items[i], items[j]) <==> Twice(table, account, items, i, j));
    }
  }

  predicate Twice(table: Table, account: AccountId, items: seq<Item>, i: nat, j: nat)
    requires i < |items| && j < |items|
  {
    && items[i].kind == items[j].kind && items[i].resource == items[j].resource
    && Identity(account, items[i].kind, items[i].resource) !in table
  }

  ghost predicate SwitchedOff(before: Table, after: Table, id: Identity) {
    id in before && before[id].active && id in after && !after[id].active
  }

  ghost function WentInactive(before: Table, after: Table): set<Identity> {
    set id | id in before && SwitchedOff(before, after, id)
  }

  /** The counters of one collector: discovered counts the items, created the new identities among them, updated the other items,
      and deactivated the assets its transaction switches off; without success nothing is counted. */
  lemma CollectorCounts(job: Job, table: Table, account: AccountId, c: Collector)
    ensures var after := StepJob(job, table, account, c);
            if Succeeds(table, account, c) then
              var items := c.answer.value.items;
              && after.discovered == job.discovered + |items|
              && after.created == job.created + |Seen(account, items) - table.Keys|
              && after.updated == job.updated + |items| - |Seen(account, items) - table.Keys|
              && after.deactivated == job.deactivated + |WentInactive(table, StepTable(table, account, c))|
            else after == job
  {
    if Succeeds(table, account, c) {
      var items := c.answer.value.items;
      NewCount(table, account, items);
      NewOrKnown(table, account, items);
      VanishedIs(table, account, items, c.types, c.answer.value.at);
    }
  }

  lemma VanishedIs(table: Table, account: AccountId, items: seq<Item>, types: set<AssetType>, at: int)
    ensures WentInactive(table, Upserted(table, account, items, types, at)) == Vanished(table, account, types, Seen(account, items))
  {
    var after := Upserted(table, account, items, types, at);
    forall id | id in table
      ensures SwitchedOff(table, after, id) <==> id in Vanished(table, account, types, Seen(account, items))
    {
      UpsertedPointwise(table, account, items, types, at, id);
      ApplyItemsPointwise(table, account, items, at, id);
      assert Lookup(after, id) == RowAfter(table, account, items, types, at, id);
    }
  }

  function RunTable(table: Table, account: AccountId, cs: seq<Collector>): Table {
    if cs == [] then table
    else StepTable(RunTable(table, account, cs[..|cs| - 1]), account, cs[|cs| - 1])
  }

  function RunJob(table: Table, account: AccountId, cs: seq<Collector>): Job {
    if cs == [] then Job(0, 0, 0, 0)
    else
      var init := cs[..|cs| - 1];
      StepJob(RunJob(table, account, init), RunTable(table, account, init), account, cs[|cs| - 1])
  }

  /** Each collector owns its types and returns only those. */
  ghost predicate Disjoint(cs: seq<Collector>) {
    && (forall i, j :: 0 <= i < j < |cs| ==> cs[i].types !! cs[j].types)
    && (forall i :: 0 <= i < |cs| && cs[i].answer.Some? ==> Typed(cs[i].answer.value.items, cs[i].types))
  }

  /** Collector c decides the rows of this identity. */
  ghost predicate Owns(table: Table, account: AccountId, c: Collector, id: Identity) {
    id.account == account && id.kind in c.types && Succeeds(table, account, c)
  }

  /** The row a whole run leaves: its owner's answer applied to the row before the run. */
  ghost function FinalRow(table: Table, account: AccountId, cs: seq<Collector>, id: Identity): Option<Row> {
    if exists i :: 0 <= i < |cs| && Owns(table, account, cs[i], id)
    then
      var i :| 0 <= i < |cs| && Owns(table, account, cs[i], id);
      RowAfter(table, account, cs[i].answer.value.items, cs[i].types, cs[i].answer.value.at, id)
    else Lookup(table, id)
  }

  /** Collisions and results depend only on rows of the collector's own types. */
  lemma OwnRowsDecide(a: Table, b: Table, account: AccountId, c: Collector)
    requires c.answer.Some? ==> Typed(c.answer.value.items, c.types)
    requires forall id: Identity :: id.account == account && id.kind in c.types ==> Lookup(a, id) == Lookup(b, id)
    ensures Succeeds(a, account, c) <==> Succeeds(b, account, c)
  {
    if c.answer.Some? {
      var items := c.answer.value.items;
      forall i | 0 <= i < |items| ensures Key(account, items[i]) in a <==> Key(account, items[i]) in b {
        assert items[i] in items;
        assert Lookup(a, Key(account, items[i])) == Lookup(b, Key(account, items[i]));
      }
    }
  }

  lemma {:induction false} RunPointwise(table: Table, account: AccountId, cs: seq<Collector>, id: Identity)
    requires Disjoint(cs)
    ensures Lookup(RunTable(table, account, cs), id) == FinalRow(table, account, cs, id)
    decreases |cs|
  {
    if cs != [] {
      var init, last := cs[..|cs| - 1], cs[|cs| - 1];
      var before := RunTable(table, account, init);
      RunPointwise(table, account, init, id);
      forall own: Identity | own.account == account && own.kind in last.types ensures Lookup(before, own) == Lookup(table, own) {
        RunPointwise(table, account, init, own);
        NotOwned(table, account, cs, own);
      }
      OwnRowsDecide(before, table, account, last);
      FinalRowLast(table, account, cs, id);
      if Succeeds(table, account, last) {
        StepLookup(before, account, last, id);
      }
    }
  }

  /** After the whole run, each successful collector's types hold exactly what it returned as active assets of the account,
      a failed one's rows are as they were, and so are all rows of other accounts. */
  lemma RunReconcilesExactly(table: Table, account: AccountId, cs: seq<Collector>, i: nat)
    requires Disjoint(cs) && i < |cs|
    ensures var after, c := RunTable(table, account, cs), cs[i];
            if Succeeds(table, account, c) then ActiveOf(after, account, c.types) == Seen(account, c.answer.value.items)
            else forall id: Identity :: id.account == account && id.kind in c.types ==> Lookup(after, id) == Lookup(table, id)
    ensures forall id: Identity :: id.account != account ==> Lookup(RunTable(table, account, cs), id) == Lookup(table, id)
  {
    var after, c := RunTable(table, account, cs), cs[i];
    forall id: Identity ensures Lookup(after, id) == FinalRow(table, account, cs, id) {
      RunPointwise(table, account, cs, id);
    }
    if Succeeds(table, account, c) {
      var items, at := c.answer.value.items, c.answer.value.at;
      var alone := Upserted(table, account, items, c.types, at);
      forall id: Identity | id.account == account && id.kind in c.types ensures Lookup(after, id) == Lookup(alone, id) {
        OneOwner(table, account, cs, id, i);
        UpsertedPointwise(table, account, items, c.types, at, id);
      }
      ReconcilesExactly(table, account, items, c.types, at);
      SameActive(after, alone, account, c.types);
    } else {
      forall id: Identity | id.account == account && id.kind in c.types ensures Lookup(after, id) == Lookup(table, id) {
        forall j | 0 <= j < |cs| ensures !Owns(table, account, cs[j], id) {
          if j < i {
            assert cs[j].types !! c.types;
          } else if j > i {
            assert c.types !! cs[j].types;
          }
        }
      }
    }
  }

  lemma SameActive(a: Table, b: Table, account: AccountId, types: set<AssetType>)
    requires forall id: Identity :: id.account == account && id.kind in types ==> Lookup(a, id) == Lookup(b, id)
    ensures ActiveOf(a, account, types) == ActiveOf(b, account, types)
  {
    forall id: Identity | id.account == account && id.kind in types
      ensures id in a <==> id in b
      ensures id in a ==> a[id] == b[id]
    {
      assert Lookup(a, id) == Lookup(b, id);
    }
  }

  /** The earlier collectors leave the last one's identities alone. */
  lemma NotOwned(table: Table, account: AccountId, cs: seq<Collector>, id: Identity)
    requires cs != [] && Disjoint(cs) && id.account == account && id.kind in cs[|cs| - 1].types
    ensures FinalRow(table, account, cs[..|cs| - 1], id) == Lookup(table, id)
  {
    var init := cs[..|cs| - 1];
    forall i | 0 <= i < |init| ensures !Owns(table, account, init[i], id) {
      assert cs[i].types !! cs[|cs| - 1].types;
    }
  }

  lemma OneOwnerIndex(table: Table, account: AccountId, cs: seq<Collector>, id: Identity, i: nat, j: nat)
    requires Disjoint(cs) && i < |cs| && j < |cs|
    requires Owns(table, account, cs[i], id) && Owns(table, account, cs[j], id)
    ensures i == j
  {}

  lemma FinalRowLast(table: Table, account: AccountId, cs: seq<Collector>, id: Identity)
    requires cs != [] && Disjoint(cs)
    ensures var last := cs[|cs| - 1];
            FinalRow(table, account, cs, id)
            == if Owns(table, account, last, id)
               then RowAfter(table, account, last.answer.value.items, last.types, last.answer.value.at, id)
               else FinalRow(table, account, cs[..|cs| - 1], id)
  {
    var init, last := cs[..|cs| - 1], cs[|cs| - 1];
    assert forall i :: 0 <= i < |init| ==> cs[i] == init[i];
    if Owns(table, account, last, id) {
      OneOwner(table, account, cs, id, |cs| - 1);
    } else if exists i :: 0 <= i < |init| && Owns(table, account, init[i], id) {
      var i :| 0 <= i < |init| && Owns(table, account, init[i], id);
      OneOwner(table, account, init, id, i);
      OneOwner(table, account, cs, id, i);
    }
  }

  lemma StepLookup(before: Table, account: AccountId, c: Collector, id: Identity)
    requires Succeeds(before, account, c) && Typed(c.answer.value.items, c.types)
    ensures Lookup(StepTable(before, account, c), id)
            == if id.account == account && id.kind in c.types
               then RowAfter(before, account, c.answer.value.items, c.types, c.answer.value.at, id)
               else Lookup(before, id)
  {
    UpsertedPointwise(before, account, c.answer.value.items, c.types, c.answer.value.at, id);
    ApplyItemsPointwise(before, account, c.answer.value.items, c.answer.value.at, id);
  }

  /** The order in which the collectors run does not matter to the inventory. */
  lemma OrderIrrelevant(table: Table, account: AccountId, a: seq<Collector>, b: seq<Collector>)
    requires Disjoint(a) && Disjoint(b) && multiset(a) == multiset(b)
    ensures RunTable(table, account, a) == RunTable(table, account, b)
  {
    var left, right := RunTable(table, account, a), RunTable(table, account, b);
    forall id ensures Lookup(left, id) == Lookup(right, id) {
      RunPointwise(table, account, a, id);
      RunPointwise(table, account, b, id);
      SameOwner(table, account, a, b, id);
    }
    SameLookups(left, right);
  }

  ghost predicate Owned(table: Table, account: AccountId, cs: seq<Collector>, id: Identity) {
    exists i :: 0 <= i < |cs| && Owns(table, account, cs[i], id)
  }

  lemma SameOwner(table: Table, account: AccountId, a: seq<Collector>, b: seq<Collector>, id: Identity)
    requires Disjoint(a) && Disjoint(b) && multiset(a) == multiset(b)
    ensures FinalRow(table, account, a, id) == FinalRow(table, account, b, id)
  {
    if Owned(table, account, a, id) {
      var i, k := OwnerMoves(table, account, a, b, id);
      OneOwner(table, account, a, id, i);
      OneOwner(table, account, b, id, k);
    } else if Owned(table, account, b, id) {
      var i, k := OwnerMoves(table, account, b, a, id);
      assert false;
    }
  }

  lemma OwnerMoves(table: Table, account: AccountId, a: seq<Collector>, b: seq<Collector>, id: Identity) returns (i: nat, k: nat)
    requires multiset(a) == multiset(b) && Owned(table, account, a, id)
    ensures i < |a| && k < |b| && a[i] == b[k] && Owns(table, account, a[i], id)
  {
    i :| 0 <= i < |a| && Owns(table, account, a[i], id);
    assert a[i] in multiset(a);
    assert a[i] in b;
    k :| 0 <= k < |b| && b[k] == a[i];
  }

  lemma OneOwner(table: Table, account: AccountId, cs: seq<Collector>, id: Identity, i: nat)
    requires Disjoint(cs) && i < |cs| && Owns(table, account, cs[i], id)
    ensures FinalRow(table, account, cs, id)
            == RowAfter(table, account, cs[i].answer.value.items, cs[i].types, cs[i].answer.value.at, id)
  {
    forall j | 0 <= j < |cs| && Owns(table, account, cs[j], id) ensures i == j {
      OneOwnerIndex(table, account, cs, id, i, j);
    }
  }

  lemma SameLookups(a: Table, b: Table)
    requires forall id :: Lookup(a, id) == Lookup(b, id)
    ensures a == b
  {
    forall id ensures id in a <==> id in b { assert Lookup(a, id) == Lookup(b, id); }
    forall id | id in a ensures a[id] == b[id] { assert Lookup(a, id) == Lookup(b, id); }
  }

  // ---- Counters ------------------------------------------------------------------------------------------

  /** When a collector succeeds, created counts the distinct identities it returned that were not stored. */
  lemma {:induction false} NewCount(table: Table, account: AccountId, items: seq<Item>)
    requires !Collides(table, account, items)
    ensures CountNew(table, account, items) == |Seen(account, items) - table.Keys|
  {
    if items != [] {
      var init, key := items[..|items| - 1], Key(account, items[|items| - 1]);
      assert items[..|items|] == items;
      CollisionGrows(table, account, items, |items| - 1);
      SeenGrows(account, items, |items| - 1);
      NewCount(table, account, init);
      OneMore(Seen(account, init), key, table.Keys);
    }
  }

  lemma OneMore(seen: set<Identity>, key: Identity, stored: set<Identity>)
    requires key in stored || key !in seen
    ensures |(seen + {key}) - stored| == |seen - stored| + if key in stored then 0 else 1
  {
    var before, after := seen - stored, (seen + {key}) - stored;
    assert after == if key in stored then before else before + {key};
  }

  lemma {:induction false} NewOrKnown(table: Table, account: AccountId, items: seq<Item>)
    ensures CountNew(table, account, items) + CountKnown(table, account, items) == |items|
  {
    if items != [] {
      NewOrKnown(table, account, items[..|items| - 1]);
    }
  }

  /** Over a whole run every discovered asset was either created or updated. */
  lemma {:induction false} CountersBalance(table: Table, account: AccountId, cs: seq<Collector>)
    ensures var job := RunJob(table, account, cs); job.created + job.updated == job.discovered
  {
    if cs != [] {
      var init, last := cs[..|cs| - 1], cs[|cs| - 1];
      CountersBalance(table, account, init);
      if last.answer.Some? {
        NewOrKnown(RunTable(table, account, init), account, last.answer.value.items);
      }
    }
  }

  /** The collectors of the service, in order. */
  const COLLECTOR_TYPES: seq<set<AssetType>> := [
    {Ec2Instance, Ec2SecurityGroup, EbsVolume},
    {S3Bucket},
    {IamUser, IamRole, IamGroup, IamPolicy},
    {RdsInstance},
    {CloudwatchAlarm, CloudwatchLogGroup},
    {CloudtrailTrail}]

  /** They own disjoint types, and between them every type. */
  lemma CollectorsPartitionTypes(kind: AssetType)
    ensures forall i, j :: 0 <= i < j < |COLLECTOR_TYPES| ==> COLLECTOR_TYPES[i] !! COLLECTOR_TYPES[j]
    ensures exists i :: 0 <= i < |COLLECTOR_TYPES| && kind in COLLECTOR_TYPES[i]
  {
    assert kind in COLLECTOR_TYPES[0] || kind in COLLECTOR_TYPES[1] || kind in COLLECTOR_TYPES[2]
        || kind in COLLECTOR_TYPES[3] || kind in COLLECTOR_TYPES[4] || kind in COLLECTOR_TYPES[5];
  }

  // ---- The table and its updates ----------------------------------------------------------------------------

  /** What is gone and what is still to be visited make up what has vanished. */
  ghost predicate Split(active: set<Identity>, gone: set<Identity>, assets: set<Identity>, seen: set<Identity>) {
    gone !! assets && active - seen == gone + (assets - seen)
  }

  lemma Visited(active: set<Identity>, gone: set<Identity>, assets: set<Identity>, seen: set<Identity>, id: Identity)
    requires Split(active, gone, assets, seen) && id in assets
    ensures Split(active, if id in seen then gone else gone + {id}, assets - {id}, seen)
    ensures |gone + {id}| == |gone| + 1 && |assets - {id}| < |assets|
  {}

  lemma Untouched(table: Table, active: set<Identity>, seen: set<Identity>)
    ensures Deactivate(table, {}) == table && Split(active, {}, active, seen)
  {}

  lemma NoneLeft(active: set<Identity>, gone: set<Identity>, seen: set<Identity>)
    requires Split(active, gone, {}, seen)
    ensures gone == active - seen
  {}

  class Inventory {
    var rows: Table

    constructor ()
      ensures rows == map[]
    {
      rows := map[];
    }

    /** One collector's transaction: all of it, or after a collision nothing. */
    method Upsert(account: AccountId, items: seq<Item>, types: set<AssetType>, at: int)
      returns (ok: bool, created: nat, updated: nat, deactivated: nat)
      modifies this
      ensures ok <==> !Collides(old(rows), account, items)
      ensures !ok ==> rows == old(rows)
      ensures ok ==> && rows == Upserted(old(rows), account, items, types, at)
                     && created == CountNew(old(rows), account, items) && updated == CountKnown(old(rows), account, items)
                     && deactivated == |Vanished(old(rows), account, types, Seen(account, items))|
    {
      var stored := rows;
      var seen: set<Identity>;
      ok, created, updated, seen := UpsertItems(account, items, at);
      deactivated := 0;
      if !ok {
        rows := stored;
        return;
      }
      forall id | id in stored ensures id in rows {
        ApplyItemsPointwise(stored, account, items, at, id);
      }
      deactivated := DeactivateMissing(stored, account, types, seen);
    }

    /** The loop over the returned items; ok reports whether the unique key will accept the insertions. */
    method UpsertItems(account: AccountId, items: seq<Item>, at: int)
      returns (ok: bool, created: nat, updated: nat, seen: set<Identity>)
      modifies this
      ensures ok <==> !Collides(old(rows), account, items)
      ensures rows == ApplyItems(old(rows), account, items, at) && seen == Seen(account, items)
      ensures created == CountNew(old(rows), account, items) && updated == CountKnown(old(rows), account, items)
    {
      var stored := rows;
      seen := {};
      ok, created, updated := true, 0, 0;
      for i := 0 to |items|
        invariant rows == ApplyItems(stored, account, items[..i], at)
        invariant seen == Seen(account, items[..i])
        invariant ok <==> !Collides(stored, account, items[..i])
        invariant created == CountNew(stored, account, items[..i]) && updated == CountKnown(stored, account, items[..i])
      {
        assert items[..i + 1][..i] == items[..i];
        var item := items[i];
        var key := Key(account, item);
        CollisionGrows(stored, account, items, i);
        SeenGrows(account, items, i);
        if key in stored {
          updated := updated + 1;
        } else {
          if key in seen { ok := false; }
          created := created + 1;
        }
        seen := seen + {key};
        rows := rows[key := Touch(Lookup(rows, key), item, at)];
      }
      assert items[..|items|] == items;
    }

    method DeactivateMissing(stored: Table, account: AccountId, types: set<AssetType>, seen: set<Identity>)
      returns (count: nat)
      requires stored.Keys <= rows.Keys
      modifies this
      ensures rows == Deactivate(old(rows), Vanished(stored, account, types, seen))
      ensures count == |Vanished(stored, account, types, seen)|
    {
      var assets := set id | id in stored && id.account == account && id.kind in types && stored[id].active;
      assert assets - seen == Vanished(stored, account, types, seen);
      count := DeactivateUnseen(assets, seen);
    }

    method DeactivateUnseen(active: set<Identity>, seen: set<Identity>) returns (count: nat)
      requires active <= rows.Keys
      modifies this
      ensures rows == Deactivate(old(rows), active - seen) && count == |active - seen|
    {
      var assets := active;
      ghost var before := rows;
      ghost var gone: set<Identity> := {};
      Untouched(before, active, seen);
      count := 0;
      while assets != {}
        invariant assets <= before.Keys && Split(active, gone, assets, seen)
        invariant rows == Deactivate(before, gone) && count == |gone|
        decreases |assets|
      {
        var id :| id in assets;
        Visited(active, gone, assets, seen, id);
        if id !in seen {
          SwitchOff(id, before, gone);
          gone := gone + {id};
          count := count + 1;
        }
        assets := assets - {id};
      }
      NoneLeft(active, gone, seen);
    }

    method SwitchOff(id: Identity, ghost before: Table, ghost gone: set<Identity>)
      requires id in before && rows == Deactivate(before, gone)
      modifies this
      ensures rows == Deactivate(before, gone + {id})
    {
      DeactivateMore(before, gone, id);
      rows := rows[id := rows[id].(active := false)];
    }

    /** Each collector in turn; one that raises or collides leaves rows and counters as they were. */
    method Run(account: AccountId, cs: seq<Collector>) returns (job: Job, status: JobStatus)
      modifies this
      ensures rows == RunTable(old(rows), account, cs) && job == RunJob(old(rows), account, cs)
      ensures status == Status(old(rows), account, cs)
    {
      job := Job(0, 0, 0, 0);
      var errors, successes := 0, 0;
      for i := 0 to |cs|
        invariant rows == RunTable(old(rows), account, cs[..i]) && job == RunJob(old(rows), account, cs[..i])
        invariant successes == Successes(old(rows), account, cs[..i]) && errors + successes == i
      {
        assert cs[..i + 1][..i] == cs[..i];
        var c := cs[i];
        if c.answer.Some? {
          var items := c.answer.value.items;
          var ok, created, updated, deactivated := Upsert(account, items, c.types, c.answer.value.at);
          if ok {
            job := Job(job.discovered + |items|, job.created + created, job.updated + updated, job.deactivated + deactivated);
            successes := successes + 1;
          } else {
            errors := errors + 1;
          }
        } else {
          errors := errors + 1;
        }
      }
      assert cs[..|cs|] == cs;
      status := if errors == 0 then Completed else if successes > 0 then PartiallyCompleted else Failed;
    }
  }

  lemma DeactivateMore(table: Table, gone: set<Identity>, id: Identity)
    requires id in table
    ensures id in Deactivate(table, gone)
    ensures Deactivate(table, gone)[id := Deactivate(table, gone)[id].(active := false)] == Deactivate(table, gone + {id})
  {}

  lemma CollisionGrows(stored: Table, account: AccountId, items: seq<Item>, i: nat)
    requires i < |items|
    ensures Collides(stored, account, items[..i + 1]) <==>
              || Collides(stored, account, items[..i])
              || (Key(account, items[i]) !in stored && Key(account, items[i]) in Seen(account, items[..i]))
  {
    var shorter, longer := items[..i], items[..i + 1];
    if Collides(stored, account, shorter) {
      var a, b :| 0 <= a < b < i && InsertedTwice(stored, account, shorter[a], shorter[b]);
      assert InsertedTwice(stored, account, longer[a], longer[b]);
    }
    if Key(account, items[i]) !in stored && Key(account, items[i]) in Seen(account, shorter) {
      var item :| item in shorter && Key(account, item) == Key(account, items[i]);
      var a :| 0 <= a < i && shorter[a] == item;
      assert InsertedTwice(stored, account, longer[a], longer[i]);
    }
    if Collides(stored, account, longer) {
      var a, b :| 0 <= a < b < i + 1 && InsertedTwice(stored, account, longer[a], longer[b]);
      assert longer[a] == shorter[a];
      assert longer[a] in shorter;
      if b < i {
        assert InsertedTwice(stored, account, shorter[a], shorter[b]);
      }
    }
  }

  lemma SeenGrows(account: AccountId, items: seq<Item>, i: nat)
    requires i < |items|
    ensures Seen(account, items[..i + 1]) == Seen(account, items[..i]) + {Key(account, items[i])}
  {
    assert items[..i + 1] == items[..i] + [items[i]];
  }

  function Successes(table: Table, account: AccountId, cs: seq<Collector>): nat {
    if cs == [] then 0
    else
      var init := cs[..|cs| - 1];
      Successes(table, account, init) + if Succeeds(RunTable(table, account, init), account, cs[|cs| - 1]) then 1 else 0
  }

  function Status(table: Table, account: AccountId, cs: seq<Collector>): JobStatus {
    var successes := Successes(table, account, cs);
    if successes >= |cs| then Completed else if successes > 0 then PartiallyCompleted else Failed
  }

  /** Which collectors succeed, judged on the table before the run. */
  function Outcomes(table: Table, account: AccountId, cs: seq<Collector>): seq<bool> {
    seq(|cs|, i requires 0 <= i < |cs| => Succeeds(table, account, cs[i]))
  }

  function CountTrue(bs: seq<bool>): nat {
    if bs == [] then 0 else CountTrue(bs[..|bs| - 1]) + if bs[|bs| - 1] then 1 else 0
  }

  lemma {:induction false} CountTrueMeaning(bs: seq<bool>)
    ensures CountTrue(bs) <= |bs|
    ensures CountTrue(bs) == |bs| <==> forall i :: 0 <= i < |bs| ==> bs[i]
    ensures CountTrue(bs) == 0 <==> forall i :: 0 <= i < |bs| ==> !bs[i]
  {
    if bs != [] {
      var init := bs[..|bs| - 1];
      CountTrueMeaning(init);
      assert forall i :: 0 <= i < |init| ==> init[i] == bs[i];
    }
  }

  /** The collectors before it do not decide whether one succeeds. */
  lemma {:induction false} JudgedBefore(table: Table, account: AccountId, cs: seq<Collector>)
    requires Disjoint(cs)
    ensures Successes(table, account, cs) == CountTrue(Outcomes(table, account, cs))
    decreases |cs|
  {
    if cs != [] {
      var init, last := cs[..|cs| - 1], cs[|cs| - 1];
      JudgedBefore(table, account, init);
      forall own: Identity | own.account == account && own.kind in last.types
        ensures Lookup(RunTable(table, account, init), own) == Lookup(table, own)
      {
        RunPointwise(table, account, init, own);
        NotOwned(table, account, cs, own);
      }
      OwnRowsDecide(RunTable(table, account, init), table, account, last);
      var outcomes := Outcomes(table, account, cs);
      assert outcomes[..|outcomes| - 1] == Outcomes(table, account, init);
    }
  }

  /** COMPLETED means every collector succeeded, FAILED that none did, judged on the table before the run. */
  lemma StatusMeaning(table: Table, account: AccountId, cs: seq<Collector>)
    requires Disjoint(cs)
    ensures Status(table, account, cs).Completed? <==> forall i :: 0 <= i < |cs| ==> Succeeds(table, account, cs[i])
    ensures Status(table, account, cs).Failed? <==> cs != [] && forall i :: 0 <= i < |cs| ==> !Succeeds(table, account, cs[i])
  {
    var outcomes := Outcomes(table, account, cs);
    JudgedBefore(table, account, cs);
    CountTrueMeaning(outcomes);
    assert forall i :: 0 <= i < |cs| ==> outcomes[i] == Succeeds(table, account, cs[i]);
  }
}
