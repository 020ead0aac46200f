/**
 * The date orders the pages sort by: `new Date(a.d) - new Date(b.d)`
 * (earliest first) and `new Date(b.d) - new Date(a.d)` (newest first),
 * on ISO dates compared as text.
 */
module Orders {
  import opened Text
  import opened Seqs
  import opened Records

  /** Earliest first by `key`: `cmp(a, b) <= 0`. */
  function Earliest<T>(key: T -> string): (T, T) -> bool
  {
    (a: T, b: T) => DateCompare(key(a), key(b)) <= 0
  }

  /** Newest first by `key`. */
  function Newest<T>(key: T -> string): (T, T) -> bool
  {
    (a: T, b: T) => DateCompare(key(b), key(a)) <= 0
  }

  lemma EarliestTotal<T(!new)>(key: T -> string)
    ensures TotalPreorder(Earliest(key))
  {
    var le := Earliest(key);
    forall a: T, b: T ensures le(a, b) || le(b, a) {
      LexTotal(key(a), key(b));
    }
    forall a: T, b: T, c: T | le(a, b) && le(b, c) ensures le(a, c) {
      LexTransitive(key(a), key(b), key(c));
    }
  }

  lemma NewestTotal<T(!new)>(key: T -> string)
    ensures TotalPreorder(Newest(key))
  {
    var le := Newest(key);
    forall a: T, b: T ensures le(a, b) || le(b, a) {
      LexTotal(key(a), key(b));
    }
    forall a: T, b: T, c: T | le(a, b) && le(b, c) ensures le(a, c) {
      LexTransitive(key(c), key(b), key(a));
    }
  }

  /** Sorting earliest first keeps every element and puts the dates in ascending order. */
  lemma SortEarliest<T(!new)>(s: seq<T>, key: T -> string)
    ensures multiset(SortBy(s, Earliest(key))) == multiset(s)
    ensures var d := SortBy(s, Earliest(key));
      forall i, j :: 0 <= i < j < |d| ==> LexLe(key(d[i]), key(d[j]))
  {
    EarliestTotal(key);
    SortBySorted(s, Earliest(key));
    var d := SortBy(s, Earliest(key));
    assert forall i, j :: 0 <= i < j < |d| ==> Earliest(key)(d[i], d[j]);
  }

  /** Sorting newest first keeps every element and puts the dates in descending order. */
  lemma SortNewest<T(!new)>(s: seq<T>, key: T -> string)
    ensures multiset(SortBy(s, Newest(key))) == multiset(s)
    ensures var d := SortBy(s, Newest(key));
      forall i, j :: 0 <= i < j < |d| ==> LexLe(key(d[j]), key(d[i]))
  {
    NewestTotal(key);
    SortBySorted(s, Newest(key));
    var d := SortBy(s, Newest(key));
    assert forall i, j :: 0 <= i < j < |d| ==> Newest(key)(d[i], d[j]);
  }

  /**
   * `sorted.slice(0, n)` of a newest-first sort: at most `n` entries, none
   * older than any entry left out.
   */
  lemma NewestTake<T(!new)>(s: seq<T>, key: T -> string, n: nat)
    ensures var d := SortBy(s, Newest(key)); var shown := Take(d, n);
      |shown| == (if n < |s| then n else |s|) &&
      (forall i :: 0 <= i < |shown| ==> shown[i] in s) &&
      multiset(shown) <= multiset(s) &&
      (forall i, j :: 0 <= i < j < |shown| ==> LexLe(key(shown[j]), key(shown[i]))) &&
      (forall i, j :: 0 <= i < |shown| <= j < |d| ==> LexLe(key(d[j]), key(shown[i])))
  {
    SortNewest(s, key);
    var d := SortBy(s, Newest(key));
    var shown := Take(d, n);
    TakePrefix(d, n);
    forall i | 0 <= i < |shown| ensures shown[i] in s {
      assert d[i] in multiset(d);
    }
  }

  /** `sorted.slice(0, n)` of an earliest-first sort: none later than any entry left out. */
  lemma EarliestTake<T(!new)>(s: seq<T>, key: T -> string, n: nat)
    ensures var d := SortBy(s, Earliest(key)); var shown := Take(d, n);
      |shown| == (if n < |s| then n else |s|) &&
      (forall i :: 0 <= i < |shown| ==> shown[i] in s) &&
      multiset(shown) <= multiset(s) &&
      (forall i, j :: 0 <= i < j < |shown| ==> LexLe(key(shown[i]), key(shown[j]))) &&
      (forall i, j :: 0 <= i < |shown| <= j < |d| ==> LexLe(key(shown[i]), key(d[j])))
  {
    SortEarliest(s, key);
    var d := SortBy(s, Earliest(key));
    var shown := Take(d, n);
    TakePrefix(d, n);
    forall i | 0 <= i < |shown| ensures shown[i] in s {
      assert d[i] in multiset(d);
    }
  }

  /** The first `n` entries hold no entry more often than the whole sequence, each in its own place. */
  lemma TakePrefix<T>(d: seq<T>, n: nat)
    ensures multiset(Take(d, n)) <= multiset(d)
    ensures forall i :: 0 <= i < |Take(d, n)| ==> Take(d, n)[i] == d[i]
  {
    var shown := Take(d, n);
    assert d == shown + d[|shown|..];
  }

  // The keys the pages sort by.

  function RequestDate(r: BloodRequest): string { r.requestDate }

  function DonationDate(d: DonationRecord): string { d.date }

  function AppointmentDate(a: Appointment): string { a.date }

  function CampDate(c: DonationCamp): string { c.date }
}
