/** The receiver's dashboard: request counts, the recent requests and the stock list. */
module ReceiverDashboard {
  import opened Text
  import opened Seqs
  import opened Records
  import opened ReceiverService
  import opened Orders

  datatype RequestCounts = RequestCounts(total: nat, approved: nat, pending: nat)

  /**
   * "Total Requests", "Approved" and "Pending" over the receiver's own
   * requests. The rejected ones are the rest: total is approved plus
   * pending plus rejected.
   */
  function Counts(allRequests: seq<BloodRequest>, receiverId: int): (c: RequestCounts)
    ensures var mine := GetReceiverRequests(allRequests, receiverId);
      c.total == |mine| && c.approved + c.pending + Count(mine, IsRejected) == c.total
    ensures c.approved + c.pending <= c.total
  {
    var mine := GetReceiverRequests(allRequests, receiverId);
    CountPartitionExact(mine, IsApproved, IsPending, IsRejected);
    RequestCounts(|mine|, Count(mine, IsApproved), Count(mine, IsPending))
  }

  /** A newly submitted request counts once more in the total and in Pending. */
  lemma SubmissionCounted(allRequests: seq<BloodRequest>, n: BloodRequest)
    requires n.status == RequestStatus.Pending
    ensures var before := Counts(allRequests, n.receiverId); var after := Counts(allRequests + [n], n.receiverId);
      after.total == before.total + 1 && after.pending == before.pending + 1 && after.approved == before.approved
  {
    var p := (q: BloodRequest) => q.receiverId == n.receiverId;
    FilterAppend(allRequests, [n], p);
    assert Filter([n], p) == [n];
    var mine := GetReceiverRequests(allRequests, n.receiverId);
    FilterAppend(mine, [n], IsPending);
    FilterAppend(mine, [n], IsApproved);
    assert Filter([n], IsPending) == [n];
    assert Filter([n], IsApproved) == [];
  }

  /** "Recent Requests": the receiver's three newest, by request date. */
  function RecentRequests(mine: seq<BloodRequest>): (r: seq<BloodRequest>)
    ensures |r| == if |mine| < 3 then |mine| else 3
    ensures forall i :: 0 <= i < |r| ==> r[i] in mine
    ensures multiset(r) <= multiset(mine)
    ensures forall i, j :: 0 <= i < j < |r| ==> LexLe(r[j].requestDate, r[i].requestDate)
    ensures var d := SortBy(mine, Newest(RequestDate));
      forall i, j :: 0 <= i < |r| <= j < |d| ==> LexLe(d[j].requestDate, r[i].requestDate)
  {
    NewestTake(mine, RequestDate, 3);
    Take(SortBy(mine, Newest(RequestDate)), 3)
  }
}
