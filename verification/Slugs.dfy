/** Finding a free organization slug (services/auth.py). */
module Slugs {
  import opened Prelude
  import opened Text

  const MAX_SLUG := 100

  /** Python's s[:n], where a negative n counts from the end. */
  function SliceTo(s: string, n: int): (r: string)
    ensures r <= s
  {
    if n >= 0 then (if n <= |s| then s[..n] else s)
    else if |s| + n >= 0 then s[..|s| + n] else ""
  }

  function Candidate(base: string, counter: nat): string {
    var suffix := "-" + Decimal(counter);
    SliceTo(base, MAX_SLUG - |suffix|) + suffix
  }

  /** Candidates for different counters differ, however much of the base was cut off. */
  lemma CandidateInjective(base: string, a: nat, b: nat)
    requires Candidate(base, a) == Candidate(base, b)
    ensures a == b
  {
    var s := Candidate(base, a);
    var x, y := Decimal(a), Decimal(b);
    assert s[|s| - |x|..] == x && s[|s| - |y|..] == y;
    assert s[|s| - |x| - 1] == '-' && s[|s| - |y| - 1] == '-';
    NoDashAfter(s, x);
    NoDashAfter(s, y);
    assert |x| == |y|;
    DecimalInjective(a, b);
  }

  lemma NoDashAfter(s: string, digits: string)
    requires |digits| <= |s| && s[|s| - |digits|..] == digits
    requires forall i :: 0 <= i < |digits| ==> '0' <= digits[i] <= '9'
    ensures forall k :: |s| - |digits| <= k < |s| ==> s[k] != '-'
  {
    forall k | |s| - |digits| <= k < |s| ensures s[k] != '-' {
      assert s[k] == digits[k - (|s| - |digits|)];
    }
  }

  /** A candidate fits exactly when its counter has fewer than 100 digits. */
  lemma CandidateFitsIff(base: string, counter: nat)
    requires |base| <= MAX_SLUG
    ensures |Candidate(base, counter)| <= MAX_SLUG <==> |Decimal(counter)| < MAX_SLUG
  {}

  /** As much of the base as leaves room for the counter, a dash and the counter; at most 100 characters in all. */
  lemma CandidateShape(base: string, counter: nat)
    requires |Decimal(counter)| < 100
    ensures var s, n := Candidate(base, counter), |Decimal(counter)|;
            && |s| == (if |base| + 1 + n <= 100 then |base| + 1 + n else 100)
            && s[|s| - n..] == Decimal(counter) && s[|s| - n - 1] == '-' && s[..|s| - n - 1] <= base
  {}

  /** The candidates for counters 2 up to but not including n. */
  ghost function Tried(base: string, n: nat): set<string> {
    set k | 2 <= k < n :: Candidate(base, k)
  }

  lemma {:induction false} TriedCount(base: string, n: nat)
    requires n >= 2
    ensures |Tried(base, n)| == n - 2
  {
    if n == 2 {
      assert Tried(base, n) == {};
    } else {
      TriedCount(base, n - 1);
      assert Tried(base, n) == Tried(base, n - 1) + {Candidate(base, n - 1)};
      if Candidate(base, n - 1) in Tried(base, n - 1) {
        var k :| 2 <= k < n - 1 && Candidate(base, k) == Candidate(base, n - 1);
        CandidateInjective(base, k, n - 1);
      }
    }
  }

  ghost predicate AllTaken(taken: set<string>, base: string, n: nat) {
    forall k :: 2 <= k < n ==> Candidate(base, k) in taken
  }

  /** If every candidate below n is taken, there are at least n - 2 taken slugs. */
  lemma Pigeonhole(taken: set<string>, base: string, n: nat)
    requires n >= 2 && AllTaken(taken, base, n)
    ensures n - 2 <= |taken|
  {
    TriedCount(base, n);
    SubsetCount(Tried(base, n), taken);
  }

  function Base(requested: string): string {
    if requested == "" then "organization" else requested
  }

  /** slug is the first candidate, in the order of their counters, that is not taken. */
  ghost predicate FirstFree(taken: set<string>, base: string, slug: string) {
    || (slug == base && base !in taken)
    || (base in taken && exists c ::
          && 2 <= c <= |taken| + 2 && slug == Candidate(base, c) && slug !in taken
          && AllTaken(taken, base, c))
  }

  /** The search stops within one more suffix than there are taken slugs, at the first free candidate. */
  method AvailableSlug(taken: set<string>, requested: string) returns (slug: string)
    ensures FirstFree(taken, Base(requested), slug)
    ensures slug !in taken && slug != ""
    ensures |requested| <= MAX_SLUG && |Decimal(|taken| + 2)| < MAX_SLUG ==> |slug| <= MAX_SLUG
  {
    var base := if requested == "" then "organization" else requested;
    var candidate := base;
    var counter: nat := 2;
    while candidate in taken
      invariant counter >= 2
      invariant if counter == 2 then candidate == base
                else base in taken && candidate == Candidate(base, counter - 1) && AllTaken(taken, base, counter - 1)
      invariant counter <= |taken| + 3
      decreases |taken| + 3 - counter
    {
      Pigeonhole(taken, base, counter);
      var suffix := "-" + Decimal(counter);
      candidate := SliceTo(base, MAX_SLUG - |suffix|) + suffix;
      assert candidate == Candidate(base, counter);
      counter := counter + 1;
    }
    SearchEnds(taken, base, counter, candidate);
    return candidate;
  }

  /** Where the search stops. */
  lemma SearchEnds(taken: set<string>, base: string, counter: nat, slug: string)
    requires slug !in taken && 2 <= counter <= |taken| + 3 && base != ""
    requires if counter == 2 then slug == base
             else base in taken && slug == Candidate(base, counter - 1) && AllTaken(taken, base, counter - 1)
    ensures FirstFree(taken, base, slug) && slug != ""
    ensures |base| <= MAX_SLUG && |Decimal(|taken| + 2)| < MAX_SLUG ==> |slug| <= MAX_SLUG
  {
    if counter > 2 {
      assert 2 <= counter - 1 <= |taken| + 2;
      DecimalLengthMonotone(counter - 1, |taken| + 2);
      CandidateFitsWhenShort(base, counter - 1);
    }
  }

  lemma CandidateFitsWhenShort(base: string, counter: nat)
    ensures Candidate(base, counter) != ""
    ensures |base| <= MAX_SLUG && |Decimal(counter)| < MAX_SLUG ==> |Candidate(base, counter)| <= MAX_SLUG
  {
    if |base| <= MAX_SLUG {
      CandidateFitsIff(base, counter);
    }
  }

  /** The specification determines the slug. */
  lemma FirstFreeUnique(taken: set<string>, base: string, a: string, b: string)
    requires FirstFree(taken, base, a) && FirstFree(taken, base, b)
    ensures a == b
  {}
}
