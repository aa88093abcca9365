/** Rule evidence and its sanitiser (security_rules/results.py). */
module Results {
  /** A Python value as evidence: a dictionary keeps its entries in insertion order, keys already as text. */
  datatype Json =
    | Null
    | Bool(b: bool)
    | Number(n: real)
    | Text(text: string)
    | List(items: seq<Json>)
    | Dict(entries: seq<Entry>)
    | Other(shown: string)

  datatype Entry = Entry(key: string, value: Json)

  const MAX_EVIDENCE_ITEMS := 50
  const MAX_EVIDENCE_STRING := 1000
  const MAX_KEY := 120
  const MAX_DEPTH := 5
  const TRUNCATED := Text("[truncated]")

  // ---- The sensitive-key pattern -----------------------------------------------------------

  function Lower(c: char): char {
    if 'A' <= c <= 'Z' then c + ' ' else c
  }

  predicate LiteralAt(s: string, i: nat, word: string) {
    i + |word| <= |s| && forall k :: 0 <= k < |word| ==> Lower(s[i + k]) == word[k]
  }

  /** Two words with an optional character, other than a line feed, between them. */
  predicate PairAt(s: string, i: nat, first: string, second: string) {
    && LiteralAt(s, i, first)
    && var j := i + |first|;
       LiteralAt(s, j, second) || (j < |s| && s[j] != '\n' && LiteralAt(s, j + 1, second))
  }

  const WORDS: seq<string> := ["secret", "credential", "password", "authorization", "cookie"]
  const PAIRS: seq<(string, string)> := [("access", "key"), ("session", "token")]

  predicate SensitiveAt(s: string, i: nat) {
    || (exists word :: word in WORDS && LiteralAt(s, i, word))
    || (exists pair :: pair in PAIRS && PairAt(s, i, pair.0, pair.1))
  }

  predicate Sensitive(s: string) {
    exists i :: 0 <= i < |s| && SensitiveAt(s, i)
  }

  /** A key is sensitive exactly when one of the seven words occurs in it, in either case; in two of them any character other
      than a line feed may stand between the halves. */
  lemma SensitiveIff(s: string)
    ensures Sensitive(s) <==> exists i :: 0 <= i < |s| && MatchAt(s, i)
  {
    forall i | 0 <= i < |s|
      ensures PairAt(s, i, "access", "key")
              <==> LiteralAt(s, i, "accesskey") || (LiteralAt(s, i, "access") && Gap(s, i + 6) && LiteralAt(s, i + 7, "key"))
      ensures PairAt(s, i, "session", "token")
              <==> LiteralAt(s, i, "sessiontoken") || (LiteralAt(s, i, "session") && Gap(s, i + 7) && LiteralAt(s, i + 8, "token"))
      ensures SensitiveAt(s, i) <==> MatchAt(s, i)
    {
      assert "access" + "key" == "accesskey" && "session" + "token" == "sessiontoken";
      LiteralJoins(s, i, "access", "key");
      LiteralJoins(s, i, "session", "token");
      SensitiveAtIff(s, i);
    }
  }

  /** One string with some of its small letters made capital. */
  predicate Capitalized(s: string, t: string) {
    |s| == |t| && forall i :: 0 <= i < |s| ==> s[i] == t[i] || ('a' <= s[i] <= 'z' && t[i] as int == s[i] as int - 32)
  }

  /** The case of letters does not matter. */
  lemma CaseIrrelevant(s: string, t: string)
    requires Capitalized(s, t)
    ensures Sensitive(s) <==> Sensitive(t)
  {
    assert forall i :: 0 <= i < |s| ==> Lower(s[i]) == Lower(t[i]);
    forall i, word: string | 0 <= i <= |s| ensures LiteralAt(s, i, word) <==> LiteralAt(t, i, word) {}
    forall i, first: string, second: string | 0 <= i < |s| ensures PairAt(s, i, first, second) <==> PairAt(t, i, first, second) {}
    forall i | 0 <= i < |s| ensures SensitiveAt(s, i) <==> SensitiveAt(t, i) {}
  }

  predicate MatchAt(s: string, i: nat) {
    || LiteralAt(s, i, "secret") || LiteralAt(s, i, "credential") || LiteralAt(s, i, "password")
    || LiteralAt(s, i, "authorization") || LiteralAt(s, i, "cookie")
    || LiteralAt(s, i, "accesskey") || (LiteralAt(s, i, "access") && Gap(s, i + 6) && LiteralAt(s, i + 7, "key"))
    || LiteralAt(s, i, "sessiontoken") || (LiteralAt(s, i, "session") && Gap(s, i + 7) && LiteralAt(s, i + 8, "token"))
  }

  predicate Gap(s: string, i: nat) { i < |s| && s[i] != '\n' }

  lemma LiteralJoins(s: string, i: nat, first: string, second: string)
    ensures LiteralAt(s, i, first + second) <==> LiteralAt(s, i, first) && LiteralAt(s, i + |first|, second)
  {
    if LiteralAt(s, i, first + second) {
      forall k | 0 <= k < |second| ensures Lower(s[i + |first| + k]) == second[k] {
        assert (first + second)[|first| + k] == second[k];
      }
      forall k | 0 <= k < |first| ensures Lower(s[i + k]) == first[k] {
        assert (first + second)[k] == first[k];
      }
    }
    if LiteralAt(s, i, first) && LiteralAt(s, i + |first|, second) {
      forall k | 0 <= k < |first + second| ensures Lower(s[i + k]) == (first + second)[k] {
        if k >= |first| {
          assert s[i + k] == s[i + |first| + (k - |first|)];
        }
      }
    }
  }

  lemma SensitiveAtIff(s: string, i: nat)
    ensures SensitiveAt(s, i)
            <==> || LiteralAt(s, i, "secret") || LiteralAt(s, i, "credential") || LiteralAt(s, i, "password")
                 || LiteralAt(s, i, "authorization") || LiteralAt(s, i, "cookie")
                 || PairAt(s, i, "access", "key") || PairAt(s, i, "session", "token")
  {
    assert "secret" == WORDS[0] && "credential" == WORDS[1] && "password" == WORDS[2] && "authorization" == WORDS[3]
           && "cookie" == WORDS[4];
    assert ("access", "key") == PAIRS[0] && ("session", "token") == PAIRS[1];
    assert "secret" in WORDS && "credential" in WORDS && "password" in WORDS && "authorization" in WORDS && "cookie" in WORDS;
    assert ("access", "key") in PAIRS && ("session", "token") in PAIRS;
  }

  lemma LiteralExtends(s: string, n: nat, i: nat, word: string)
    requires n <= |s| && LiteralAt(s[..n], i, word)
    ensures LiteralAt(s, i, word)
  {
    forall k | 0 <= k < |word| ensures Lower(s[i + k]) == word[k] {
      assert s[..n][i + k] == s[i + k];
    }
  }

  lemma PairExtends(s: string, n: nat, i: nat, first: string, second: string)
    requires n <= |s| && PairAt(s[..n], i, first, second)
    ensures PairAt(s, i, first, second)
  {
    var j := i + |first|;
    LiteralExtends(s, n, i, first);
    if LiteralAt(s[..n], j, second) {
      LiteralExtends(s, n, j, second);
    } else {
      LiteralExtends(s, n, j + 1, second);
    }
  }

  lemma SensitiveExtends(s: string, n: nat, i: nat)
    requires n <= |s| && SensitiveAt(s[..n], i)
    ensures SensitiveAt(s, i)
  {
    if word :| word in WORDS && LiteralAt(s[..n], i, word) {
      LiteralExtends(s, n, i, word);
    } else {
      var pair :| pair in PAIRS && PairAt(s[..n], i, pair.0, pair.1);
      PairExtends(s, n, i, pair.0, pair.1);
    }
  }

  /** A key that matches nowhere does not start to match when it is cut. */
  lemma PrefixNotSensitive(s: string, n: nat)
    requires n <= |s| && !Sensitive(s)
    ensures !Sensitive(s[..n])
  {
    forall i | 0 <= i < n ensures !SensitiveAt(s[..n], i) {
      if SensitiveAt(s[..n], i) {
        SensitiveExtends(s, n, i);
      }
    }
  }

  // ---- Sanitising ---------------------------------------------------------------------------

  function Cut(s: string, limit: nat): (r: string)
    ensures |r| <= limit && (|s| <= limit ==> r == s) && r <= s
  {
    if |s| <= limit then s else s[..limit]
  }

  /** Assigning a dictionary key: an existing key keeps its place and takes the new value. */
  function Put(entries: seq<Entry>, key: string, value: Json): seq<Entry> {
    if entries == [] then [Entry(key, value)]
    else if entries[0].key == key then [Entry(key, value)] + entries[1..]
    else [entries[0]] + Put(entries[1..], key, value)
  }

  function Sanitize(v: Json, depth: nat): Json
    decreases v, 1
  {
    if depth > MAX_DEPTH then TRUNCATED
    else match v
      case Dict(entries) =>
        Dict(SanitizeEntries(if |entries| <= MAX_EVIDENCE_ITEMS then entries else entries[..MAX_EVIDENCE_ITEMS], depth))
      case List(items) => List(SanitizeItems(if |items| <= MAX_EVIDENCE_ITEMS then items else items[..MAX_EVIDENCE_ITEMS], depth))
      case Text(text) => Text(Cut(text, MAX_EVIDENCE_STRING))
      case Other(shown) => Text(Cut(shown, MAX_EVIDENCE_STRING))
      case _ => v
  }

  function SanitizeItems(items: seq<Json>, depth: nat): seq<Json>
    decreases items, 0
  {
    if items == [] then []
    else SanitizeItems(items[..|items| - 1], depth) + [Sanitize(items[|items| - 1], depth + 1)]
  }

  function SanitizeEntries(entries: seq<Entry>, depth: nat): seq<Entry>
    decreases entries, 0
  {
    if entries == [] then []
    else
      var done := SanitizeEntries(entries[..|entries| - 1], depth);
      var last := entries[|entries| - 1];
      if Sensitive(last.key) then done
      else Put(done, Cut(last.key, MAX_KEY), Sanitize(last.value, depth + 1))
  }

  // ---- What sanitised values are --------------------------------------------------------------

  predicate KeyOk(key: string) {
    |key| <= MAX_KEY && !Sensitive(key)
  }

  predicate DistinctKeys(entries: seq<Entry>) {
    forall i, j :: 0 <= i < j < |entries| ==> entries[i].key != entries[j].key
  }

  predicate CleanKeys(entries: seq<Entry>) {
    (forall i :: 0 <= i < |entries| ==> KeyOk(entries[i].key)) && DistinctKeys(entries)
  }

  /** Bounded in depth, width and text, with distinct keys none of which is sensitive. */
  predicate Clean(v: Json, depth: nat)
    decreases v
  {
    if depth > MAX_DEPTH then v == TRUNCATED
    else match v
      case Dict(entries) =>
        && |entries| <= MAX_EVIDENCE_ITEMS && CleanKeys(entries)
        && (forall i :: 0 <= i < |entries| ==> Clean(entries[i].value, depth + 1))
      case List(items) =>
        |items| <= MAX_EVIDENCE_ITEMS && (forall i :: 0 <= i < |items| ==> Clean(items[i], depth + 1))
      case Text(text) => |text| <= MAX_EVIDENCE_STRING
      case Other(_) => false
      case _ => true
  }

  lemma {:induction false} PutMembers(entries: seq<Entry>, key: string, value: Json, e: Entry)
    ensures e in Put(entries, key, value) ==> e == Entry(key, value) || e in entries
    ensures |Put(entries, key, value)| <= |entries| + 1
  {
    if entries != [] {
      PutMembers(entries[1..], key, value, e);
      assert entries == [entries[0]] + entries[1..];
    }
  }

  lemma {:induction false} PutDistinct(entries: seq<Entry>, key: string, value: Json)
    requires DistinctKeys(entries)
    ensures DistinctKeys(Put(entries, key, value))
  {
    if entries != [] && entries[0].key != key {
      var rest := Put(entries[1..], key, value);
      PutDistinct(entries[1..], key, value);
      forall j | 0 <= j < |rest| ensures rest[j].key != entries[0].key {
        PutMembers(entries[1..], key, value, rest[j]);
      }
    }
  }

  lemma PutClean(entries: seq<Entry>, key: string, value: Json, depth: nat)
    requires CleanKeys(entries) && KeyOk(key) && Clean(value, depth)
    requires forall i :: 0 <= i < |entries| ==> Clean(entries[i].value, depth)
    ensures var r := Put(entries, key, value);
            |r| <= |entries| + 1 && CleanKeys(r) && forall i :: 0 <= i < |r| ==> Clean(r[i].value, depth)
  {
    var r := Put(entries, key, value);
    PutDistinct(entries, key, value);
    PutMembers(entries, key, value, Entry(key, value));
    forall i | 0 <= i < |r| ensures KeyOk(r[i].key) && Clean(r[i].value, depth) {
      PutMembers(entries, key, value, r[i]);
    }
  }

  lemma {:induction false} SanitizedIsClean(v: Json, depth: nat)
    ensures Clean(Sanitize(v, depth), depth)
    decreases v, 1
  {
    if depth <= MAX_DEPTH {
      match v
      case Dict(entries) =>
        EntriesClean(if |entries| <= MAX_EVIDENCE_ITEMS then entries else entries[..MAX_EVIDENCE_ITEMS], depth);
      case List(items) =>
        ItemsClean(if |items| <= MAX_EVIDENCE_ITEMS then items else items[..MAX_EVIDENCE_ITEMS], depth);
      case _ =>
    }
  }

  lemma {:induction false} ItemsClean(items: seq<Json>, depth: nat)
    ensures var r := SanitizeItems(items, depth);
            |r| == |items| && forall i :: 0 <= i < |r| ==> Clean(r[i], depth + 1)
    decreases items, 0
  {
    if items != [] {
      ItemsClean(items[..|items| - 1], depth);
      SanitizedIsClean(items[|items| - 1], depth + 1);
    }
  }

  lemma {:induction false} EntriesClean(entries: seq<Entry>, depth: nat)
    ensures var r := SanitizeEntries(entries, depth);
            |r| <= |entries| && CleanKeys(r) && forall i :: 0 <= i < |r| ==> Clean(r[i].value, depth + 1)
    decreases entries, 0
  {
    if entries != [] {
      EntriesClean(entries[..|entries| - 1], depth);
      var last := entries[|entries| - 1];
      if !Sensitive(last.key) {
        if |last.key| > MAX_KEY {
          PrefixNotSensitive(last.key, MAX_KEY);
        }
        SanitizedIsClean(last.value, depth + 1);
        PutClean(SanitizeEntries(entries[..|entries| - 1], depth), Cut(last.key, MAX_KEY), Sanitize(last.value, depth + 1), depth + 1);
      }
    }
  }

  lemma {:induction false} PutFresh(entries: seq<Entry>, key: string, value: Json)
    requires forall i :: 0 <= i < |entries| ==> entries[i].key != key
    ensures Put(entries, key, value) == entries + [Entry(key, value)]
  {
    if entries != [] {
      PutFresh(entries[1..], key, value);
    }
  }

  lemma {:induction false} CleanIsFixed(v: Json, depth: nat)
    requires Clean(v, depth)
    ensures Sanitize(v, depth) == v
    decreases v, 1
  {
    if depth <= MAX_DEPTH {
      match v
      case Dict(entries) => EntriesFixed(entries, depth);
      case List(items) => ItemsFixed(items, depth);
      case _ =>
    }
  }

  lemma {:induction false} ItemsFixed(items: seq<Json>, depth: nat)
    requires forall i :: 0 <= i < |items| ==> Clean(items[i], depth + 1)
    ensures SanitizeItems(items, depth) == items
    decreases items, 0
  {
    if items != [] {
      ItemsFixed(items[..|items| - 1], depth);
      CleanIsFixed(items[|items| - 1], depth + 1);
    }
  }

  lemma {:induction false} EntriesFixed(entries: seq<Entry>, depth: nat)
    requires CleanKeys(entries) && forall i :: 0 <= i < |entries| ==> Clean(entries[i].value, depth + 1)
    ensures SanitizeEntries(entries, depth) == entries
    decreases entries, 0
  {
    if entries != [] {
      var init, last := entries[..|entries| - 1], entries[|entries| - 1];
      EntriesFixed(init, depth);
      CleanIsFixed(last.value, depth + 1);
      EntryFixed(init, last, depth);
      assert entries == init + [last];
    }
  }

  lemma EntryFixed(init: seq<Entry>, last: Entry, depth: nat)
    requires SanitizeEntries(init, depth) == init && Sanitize(last.value, depth + 1) == last.value
    requires |last.key| <= MAX_KEY && !Sensitive(last.key) && forall i :: 0 <= i < |init| ==> init[i].key != last.key
    ensures SanitizeEntries(init + [last], depth) == init + [last]
  {
    assert (init + [last])[..|init|] == init;
    PutFresh(init, last.key, last.value);
  }

  // ---- What sanitising keeps --------------------------------------------------------------------

  function Short(key: string): string {
    if |key| <= 120 then key else key[..120]
  }

  /** Entry i is the last one that ends up under this key. */
  predicate Wins(entries: seq<Entry>, i: nat, key: string) {
    && i < |entries| && !Sensitive(entries[i].key) && Short(entries[i].key) == key
    && forall j :: i < j < |entries| && !Sensitive(entries[j].key) ==> Short(entries[j].key) != key
  }

  lemma {:induction false} PutExactly(entries: seq<Entry>, key: string, value: Json, e: Entry)
    requires DistinctKeys(entries)
    ensures e in Put(entries, key, value) <==> e == Entry(key, value) || (e in entries && e.key != key)
  {
    if entries != [] {
      var rest := entries[1..];
      assert entries == [entries[0]] + rest;
      if entries[0].key != key {
        PutExactly(rest, key, value, e);
      } else {
        assert forall x :: x in rest ==> x.key != key;
      }
    }
  }

  /** A sanitised dictionary has one entry for each cut key that is not sensitive: the last value under it, sanitised. */
  lemma {:induction false} EntriesExactly(entries: seq<Entry>, depth: nat, e: Entry)
    ensures e in SanitizeEntries(entries, depth)
            <==> exists i :: 0 <= i && Wins(entries, i, e.key) && e.value == Sanitize(entries[i].value, depth + 1)
    decreases entries, 0
  {
    if entries != [] {
      var init, last := entries[..|entries| - 1], entries[|entries| - 1];
      EntriesExactly(init, depth, e);
      EntriesClean(init, depth);
      if !Sensitive(last.key) {
        PutExactly(SanitizeEntries(init, depth), Short(last.key), Sanitize(last.value, depth + 1), e);
      }
      if !Sensitive(last.key) && Short(last.key) == e.key {
        assert Wins(entries, |init|, e.key);
        assert forall i :: 0 <= i && Wins(entries, i, e.key) ==> i == |init|;
      } else {
        assert forall i :: 0 <= i < |init| ==> (Wins(entries, i, e.key) <==> Wins(init, i, e.key));
      }
    }
  }

  /** What sanitising makes of each kind of value. */
  lemma {:induction false} SanitizeAnswer(v: Json, depth: nat)
    ensures depth > 5 ==> Sanitize(v, depth) == Text("[truncated]")
    ensures depth <= 5 ==>
              match v
              case Text(text) => Sanitize(v, depth) == Text(if |text| <= 1000 then text else text[..1000])
              case Other(shown) => Sanitize(v, depth) == Text(if |shown| <= 1000 then shown else shown[..1000])
              case List(items) => && Sanitize(v, depth).List?
                                  && |Sanitize(v, depth).items| == (if |items| <= 50 then |items| else 50)
                                  && (forall i :: 0 <= i < |Sanitize(v, depth).items| ==>
                                        Sanitize(v, depth).items[i] == Sanitize(items[i], depth + 1))
              case Dict(entries) =>
                var first := if |entries| <= 50 then entries else entries[..50];
                && Sanitize(v, depth).Dict?
                && (forall e :: e in Sanitize(v, depth).entries
                          <==> exists i :: 0 <= i && Wins(first, i, e.key) && e.value == Sanitize(first[i].value, depth + 1))
              case _ => Sanitize(v, depth) == v
  {
    if depth <= 5 {
      match v
      case List(items) => ItemsExactly(if |items| <= 50 then items else items[..50], depth);
      case Dict(entries) =>
        var first := if |entries| <= 50 then entries else entries[..50];
        forall e ensures e in SanitizeEntries(first, depth)
                         <==> exists i :: 0 <= i && Wins(first, i, e.key) && e.value == Sanitize(first[i].value, depth + 1)
        {
          EntriesExactly(first, depth, e);
        }
      case _ =>
    }
  }

  lemma {:induction false} ItemsExactly(items: seq<Json>, depth: nat)
    ensures |SanitizeItems(items, depth)| == |items|
    ensures forall i :: 0 <= i < |items| ==> SanitizeItems(items, depth)[i] == Sanitize(items[i], depth + 1)
  {
    if items != [] {
      ItemsExactly(items[..|items| - 1], depth);
    }
  }

  /** The sanitiser leaves alone exactly the values that already meet its bounds. */
  lemma FixedIffClean(v: Json, depth: nat)
    ensures Sanitize(v, depth) == v <==> Clean(v, depth)
  {
    SanitizedIsClean(v, depth);
    if Clean(v, depth) {
      CleanIsFixed(v, depth);
    }
  }

  /** Applying the sanitiser again changes nothing. */
  lemma SanitizeIdempotent(v: Json, depth: nat)
    ensures Sanitize(Sanitize(v, depth), depth) == Sanitize(v, depth)
  {
    SanitizedIsClean(v, depth);
    CleanIsFixed(Sanitize(v, depth), depth);
  }

  // ---- Rule results ----------------------------------------------------------------------------

  datatype Status = Passed | Failed | NotApplicable | Error
  datatype RuleResult = RuleResult(status: Status, evidence: Json)

  /** Every result is built with sanitised evidence. */
  function Make(status: Status, evidence: Json): RuleResult {
    RuleResult(status, Sanitize(evidence, 0))
  }
}
