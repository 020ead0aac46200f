/** The administrator's donor list: a search box and the donor statistics. */
module ManageDonors {
  import opened Text
  import opened Seqs
  import opened Records
  import opened MockData

  /** Name, email or blood type contains the term, ignoring case. */
  predicate DonorMatches(d: Donor, searchTerm: string)
  {
    Contains(Lower(d.name), Lower(searchTerm)) ||
    Contains(Lower(d.email), Lower(searchTerm)) ||
    Contains(Lower(d.bloodType), Lower(searchTerm))
  }

  /** `filteredDonors`: every donor for an empty box, else those matching, in list order. */
  function FilteredDonors(donors: seq<Donor>, searchTerm: string): (r: seq<Donor>)
    ensures searchTerm == "" ==> r == donors
    ensures Subseq(r, donors)
    ensures forall i :: 0 <= i < |r| ==> r[i] in donors && (searchTerm != "" ==> DonorMatches(r[i], searchTerm))
    ensures forall i :: 0 <= i < |donors| && DonorMatches(donors[i], searchTerm) ==> donors[i] in r
    ensures multiset(r) <= multiset(donors)
    ensures forall i :: 0 <= i < |donors| && DonorMatches(donors[i], searchTerm) ==>
      multiset(r)[donors[i]] == multiset(donors)[donors[i]]
  {
    if searchTerm == "" then
      SubseqRefl(donors);
      donors
    else
      var p := (d: Donor) => DonorMatches(d, searchTerm);
      var r := Filter(donors, p);
      FilterMultiset(donors, p);
      assert forall i :: 0 <= i < |r| ==> p(r[i]);
      r
  }

  /** The search ignores the case of the term. */
  lemma SearchIgnoresCase(d: Donor, searchTerm: string)
    ensures DonorMatches(d, searchTerm) <==> DonorMatches(d, Lower(searchTerm))
  {
    LowerIdempotent(searchTerm);
  }

  /** "Total Donations" card: the donors' donation counts added up. */
  function Donations(d: Donor): int { d.donations }

  function TotalDonations(donors: seq<Donor>): (t: int)
    ensures (forall i :: 0 <= i < |donors| ==> donors[i].donations >= 0) ==> t >= 0
  {
    TotalNonNegative(donors);
    Sum(donors, Donations)
  }

  /**
   * The card adds up every donor's count: no donors give 0, and one more
   * donor adds exactly that donor's count; so do the donors of two lists.
   */
  lemma TotalDonationsAdds(ds: seq<Donor>, more: seq<Donor>, d: Donor)
    ensures TotalDonations([]) == 0
    ensures TotalDonations(ds + [d]) == TotalDonations(ds) + d.donations
    ensures TotalDonations(ds + more) == TotalDonations(ds) + TotalDonations(more)
  {
    SumAppend(ds, [d], Donations);
    SumAppend(ds, more, Donations);
  }

  lemma TotalNonNegative(donors: seq<Donor>)
    ensures (forall i :: 0 <= i < |donors| ==> donors[i].donations >= 0) ==> Sum(donors, Donations) >= 0
  {
    if forall i :: 0 <= i < |donors| ==> donors[i].donations >= 0 {
      assert forall x :: x in donors ==> Donations(x) >= 0;
      SumNonNegative(donors, Donations);
    }
  }

  /** The seed donors have given 5 + 8 + 12 + 3 = 28 times. */
  lemma SeedTotals()
    ensures |SeedDonors| == 4 && TotalDonations(SeedDonors) == 28
  {
  }
}
