/** The administrator's dashboard: four totals, the recent requests and the critical-stock alert. */
module AdminDashboard {
  import opened Wrappers
  import opened Text
  import opened Seqs
  import opened Records
  import opened MockData
  import opened AdminService
  import opened Orders

  datatype AdminStats = AdminStats(
    totalDonors: nat, totalReceivers: nat, totalUnits: int, criticalTypes: nat, pendingRequests: nat)

  predicate IsCritical(item: InventoryItem) { item.status == StockStatus.Critical }

  /**
   * The stats row. There is a critical type to report exactly when some
   * entry is marked Critical, and none of the counts exceeds its list.
   */
  function Stats(donors: seq<Donor>, receivers: seq<Receiver>, inv: seq<InventoryItem>, requests: seq<BloodRequest>)
    : (s: AdminStats)
    ensures s.totalDonors == |donors| && s.totalReceivers == |receivers|
    ensures s.criticalTypes <= |inv| && s.pendingRequests <= |requests|
    ensures s.criticalTypes > 0 <==> exists i :: 0 <= i < |inv| && inv[i].status == StockStatus.Critical
    ensures s.pendingRequests > 0 <==> exists i :: 0 <= i < |requests| && requests[i].status == RequestStatus.Pending
    ensures (forall i :: 0 <= i < |inv| ==> inv[i].quantity >= 0) ==> s.totalUnits >= 0
  {
    CountPositive(inv, IsCritical);
    CountPositive(requests, IsPending);
    SumNonNegativeAll(inv);
    AdminStats(|donors|, |receivers|, Sum(inv, QuantityOf), Count(inv, IsCritical), Count(requests, IsPending))
  }

  lemma SumNonNegativeAll(inv: seq<InventoryItem>)
    ensures (forall i :: 0 <= i < |inv| ==> inv[i].quantity >= 0) ==> Sum(inv, QuantityOf) >= 0
  {
    if forall i :: 0 <= i < |inv| ==> inv[i].quantity >= 0 {
      assert forall x :: x in inv ==> QuantityOf(x) >= 0;
      SumNonNegative(inv, QuantityOf);
    }
  }

  /** The red alert under the cards is shown only when some type is critical. */
  predicate CriticalAlertShown(s: AdminStats)
  {
    s.criticalTypes > 0
  }

  /**
   * Approving a request whose blood type is stocked lowers the "Blood Units"
   * card by exactly the units approved; rejecting leaves it.
   */
  lemma ApprovalLowersTotalUnits(inv: seq<InventoryItem>, reqs: seq<BloodRequest>, i: nat)
    requires i < |reqs| && forall k :: 0 <= k < i ==> reqs[k].id != reqs[i].id
    requires TypeIndex(inv, reqs[i].bloodType).Some?
    ensures Sum(InventoryAfterStatus(inv, reqs, reqs[i].id, RequestStatus.Approved), QuantityOf) ==
            Sum(inv, QuantityOf) - reqs[i].units
    ensures InventoryAfterStatus(inv, reqs, reqs[i].id, RequestStatus.Rejected) == inv
  {
    RequestIndexIs(reqs, reqs[i].id, i);
    DeductTotal(inv, reqs[i].bloodType, reqs[i].units);
  }

  /** On the seed data: 162 units in stock, two critical types, one pending request. */
  lemma SeedStats()
    ensures Stats(SeedDonors, SeedReceivers, SeedInventory, SeedRequests).totalUnits == 162
    ensures Stats(SeedDonors, SeedReceivers, SeedInventory, SeedRequests).criticalTypes == 2
    ensures Stats(SeedDonors, SeedReceivers, SeedInventory, SeedRequests).pendingRequests == 1
  {
    SeedUnits();
    SeedCritical();
    SeedPending();
  }

  lemma SeedUnits()
    ensures Sum(SeedInventory, QuantityOf) == 162
  {
    var s := SeedInventory;
    assert s == s[..4] + s[4..];
    SumAppend(s[..4], s[4..], QuantityOf);
  }

  lemma SeedCritical()
    ensures Count(SeedInventory, IsCritical) == 2
  {
    var s := SeedInventory;
    assert !IsCritical(s[0]) && !IsCritical(s[1]) && !IsCritical(s[2]) && IsCritical(s[3]);
    assert !IsCritical(s[4]) && IsCritical(s[5]) && !IsCritical(s[6]) && !IsCritical(s[7]);
    CountThirdAndFifth(s, IsCritical);
  }

  lemma SeedPending()
    ensures Count(SeedRequests, IsPending) == 1
  {
  }

  /** "Recent Blood Requests": the three newest, by request date. */
  function RecentRequests(requests: seq<BloodRequest>): (r: seq<BloodRequest>)
    ensures |r| == if |requests| < 3 then |requests| else 3
    ensures forall i :: 0 <= i < |r| ==> r[i] in requests
    ensures multiset(r) <= multiset(requests)
    ensures forall i, j :: 0 <= i < j < |r| ==> LexLe(r[j].requestDate, r[i].requestDate)
    ensures var d := SortBy(requests, Newest(RequestDate));
      forall i, j :: 0 <= i < |r| <= j < |d| ==> LexLe(d[j].requestDate, r[i].requestDate)
  {
    NewestTake(requests, RequestDate, 3);
    SortNewest(requests, RequestDate);
    Take(SortBy(requests, Newest(RequestDate)), 3)
  }
}
