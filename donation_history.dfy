/** The donor's donation history: their donations, newest first. */
module DonationHistory {
  import opened Text
  import opened Seqs
  import opened Records
  import opened DonorService
  import opened Orders

  /**
   * The table rows: exactly the signed-in donor's donations, each once,
   * newest first; empty (the "no donations" notice) exactly when the donor
   * has none.
   */
  function Rows(history: seq<DonationRecord>, donorId: int): (r: seq<DonationRecord>)
    ensures multiset(r) == multiset(GetDonorHistory(history, donorId))
    ensures forall i :: 0 <= i < |r| ==> r[i].donorId == donorId
    ensures forall i, j :: 0 <= i < j < |r| ==> LexLe(r[j].date, r[i].date)
    ensures r == [] <==> forall i :: 0 <= i < |history| ==> history[i].donorId != donorId
  {
    var mine := GetDonorHistory(history, donorId);
    SortNewest(mine, DonationDate);
    var r := SortBy(mine, Newest(DonationDate));
    SameElements(r, mine);
    assert mine != [] ==> mine[0] in history;
    r
  }
}
