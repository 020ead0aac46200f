/** The receiver's request history: their requests, newest first. */
module RequestHistory {
  import opened Text
  import opened Seqs
  import opened Records
  import opened ReceiverService
  import opened Orders

  /**
   * The cards: exactly the signed-in receiver's requests, each once, newest
   * first, whatever their status; empty exactly when the receiver has none.
   */
  function Cards(requests: seq<BloodRequest>, receiverId: int): (r: seq<BloodRequest>)
    ensures multiset(r) == multiset(GetReceiverRequests(requests, receiverId))
    ensures forall i :: 0 <= i < |r| ==> r[i].receiverId == receiverId
    ensures forall i, j :: 0 <= i < j < |r| ==> LexLe(r[j].requestDate, r[i].requestDate)
    ensures r == [] <==> forall i :: 0 <= i < |requests| ==> requests[i].receiverId != receiverId
  {
    var mine := GetReceiverRequests(requests, receiverId);
    SortNewest(mine, RequestDate);
    var r := SortBy(mine, Newest(RequestDate));
    SameElements(r, mine);
    assert mine != [] ==> mine[0] in requests;
    r
  }
}
