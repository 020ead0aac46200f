/**
 * The administrator's request list: a status filter and a search box, a
 * display order, the approve/reject confirmation, and per-status counts.
 */
module ManageRequests {
  import opened Wrappers
  import opened Text
  import opened Seqs
  import opened Records
  import opened MockData
  import opened AdminService

  // ---------------------------------------------------------------------------
  // Filtering

  /** The status tab: "all", or a lower-case status name. */
  predicate MatchesStatus(r: BloodRequest, currentFilter: string)
  {
    Lower(RequestStatusName(r.status)) == currentFilter
  }

  /** The search box matches receiver name, blood type or hospital, ignoring case. */
  predicate MatchesSearch(r: BloodRequest, searchTerm: string)
  {
    Contains(Lower(r.receiverName), Lower(searchTerm)) ||
    Contains(Lower(r.bloodType), Lower(searchTerm)) ||
    Contains(Lower(r.hospital), Lower(searchTerm))
  }

  /** `filteredRequests`, before sorting. */
  function FilterRequests(requests: seq<BloodRequest>, currentFilter: string, searchTerm: string): seq<BloodRequest>
  {
    var byStatus := if currentFilter != "all" then Filter(requests, (r: BloodRequest) => MatchesStatus(r, currentFilter))
                    else requests;
    if searchTerm != "" then Filter(byStatus, (r: BloodRequest) => MatchesSearch(r, searchTerm)) else byStatus
  }

  /**
   * The filtered list keeps its order and drops requests only: a request of
   * the list is shown exactly when it passes the status tab (always, on
   * "all") and the search box (always, when it is empty).
   */
  lemma FilterRequestsSpec(requests: seq<BloodRequest>, currentFilter: string, searchTerm: string)
    ensures Subseq(FilterRequests(requests, currentFilter, searchTerm), requests)
    ensures forall i :: 0 <= i < |requests| ==>
      (requests[i] in FilterRequests(requests, currentFilter, searchTerm) <==>
        (currentFilter == "all" || MatchesStatus(requests[i], currentFilter)) &&
        (searchTerm == "" || MatchesSearch(requests[i], searchTerm)))
    ensures currentFilter == "all" && searchTerm == "" ==> FilterRequests(requests, currentFilter, searchTerm) == requests
  {
    var pS := (r: BloodRequest) => MatchesStatus(r, currentFilter);
    var pQ := (r: BloodRequest) => MatchesSearch(r, searchTerm);
    var byStatus := if currentFilter != "all" then Filter(requests, pS) else requests;
    var result := FilterRequests(requests, currentFilter, searchTerm);
    if currentFilter == "all" {
      SubseqRefl(requests);
    }
    if searchTerm == "" {
      SubseqRefl(byStatus);
    }
    SubseqTransitive(result, byStatus, requests);
    forall i | 0 <= i < |requests|
      ensures requests[i] in result <==>
        (currentFilter == "all" || MatchesStatus(requests[i], currentFilter)) &&
        (searchTerm == "" || MatchesSearch(requests[i], searchTerm))
    {
      var x := requests[i];
      InFilter(requests, pS, x);
      InFilter(byStatus, pQ, x);
    }
  }

  /** The "pending" tab keeps exactly the Pending requests. */
  lemma PendingTab(r: BloodRequest)
    ensures MatchesStatus(r, "pending") <==> r.status == RequestStatus.Pending
  {
    assert Lower("Pending") == "pending";
    assert Lower("Approved") != "pending" by { assert Lower("Approved")[0] == 'a'; }
    assert Lower("Rejected") != "pending" by { assert Lower("Rejected")[0] == 'r'; }
  }

  // ---------------------------------------------------------------------------
  // Display order

  /** `urgencyOrder`. */
  function UrgencyRank(u: Urgency): nat
  {
    match u
    case Critical => 0
    case High => 1
    case Medium => 2
    case Low => 3
  }

  /** The sort comparator: negative when `a` is shown before `b`. */
  function Compare(a: BloodRequest, b: BloodRequest): int
  {
    if a.status == RequestStatus.Pending && b.status != RequestStatus.Pending then -1
    else if a.status != RequestStatus.Pending && b.status == RequestStatus.Pending then 1
    else if a.status == RequestStatus.Pending && b.status == RequestStatus.Pending then
      UrgencyRank(a.urgency) - UrgencyRank(b.urgency)
    else DateCompare(b.requestDate, a.requestDate)
  }

  /** Two Pending requests of the same urgency tie, whatever their dates. */
  lemma PendingTie(a: BloodRequest, b: BloodRequest)
    requires a.status == RequestStatus.Pending && b.status == RequestStatus.Pending
    requires a.urgency == b.urgency
    ensures Compare(a, b) == 0
  {
  }

  predicate RequestLe(a: BloodRequest, b: BloodRequest)
  {
    Compare(a, b) <= 0
  }

  lemma RequestLeTotalPreorder()
    ensures TotalPreorder(RequestLe)
  {
    forall a: BloodRequest, b: BloodRequest ensures RequestLe(a, b) || RequestLe(b, a) {
      LexTotal(a.requestDate, b.requestDate);
    }
    forall a: BloodRequest, b: BloodRequest, c: BloodRequest | RequestLe(a, b) && RequestLe(b, c)
      ensures RequestLe(a, c)
    {
      if a.status != RequestStatus.Pending && b.status != RequestStatus.Pending && c.status != RequestStatus.Pending {
        LexTransitive(c.requestDate, b.requestDate, a.requestDate);
      }
    }
  }

  /**
   * Pending requests of one urgency compare as ties, and the sort is stable,
   * so they are displayed in the order the list holds them.
   */
  lemma PendingTiesKeepListOrder(list: seq<BloodRequest>, y: BloodRequest)
    requires y.status == RequestStatus.Pending
    ensures var same := (r: BloodRequest) => r.status == RequestStatus.Pending && r.urgency == y.urgency;
      Filter(SortRequests(list), same) == Filter(list, same)
  {
    var same := (r: BloodRequest) => r.status == RequestStatus.Pending && r.urgency == y.urgency;
    RequestLeTotalPreorder();
    SortByStable(list, RequestLe, y);
    forall r: BloodRequest ensures TiesWith(RequestLe, y)(r) == same(r) {
      TieIsSameUrgency(r, y);
    }
    FilterSameTest(list, TiesWith(RequestLe, y), same);
    FilterSameTest(SortRequests(list), TiesWith(RequestLe, y), same);
  }

  lemma TieIsSameUrgency(r: BloodRequest, y: BloodRequest)
    requires y.status == RequestStatus.Pending
    ensures RequestLe(r, y) && RequestLe(y, r) <==> r.status == RequestStatus.Pending && r.urgency == y.urgency
  {
  }

  /** The list as displayed. */
  function SortRequests(list: seq<BloodRequest>): seq<BloodRequest>
  {
    SortBy(list, RequestLe)
  }

  /**
   * The displayed list holds the filtered requests, each once. Every Pending
   * request comes before every other one; Pending requests go from Critical
   * to Low urgency; the others go from the newest request date to the oldest.
   */
  lemma DisplayOrder(list: seq<BloodRequest>)
    ensures multiset(SortRequests(list)) == multiset(list)
    ensures var d := SortRequests(list);
      forall i, j :: 0 <= i < j < |d| && d[j].status == RequestStatus.Pending ==> d[i].status == RequestStatus.Pending
    ensures var d := SortRequests(list);
      forall i, j :: 0 <= i < j < |d| && d[i].status == RequestStatus.Pending && d[j].status == RequestStatus.Pending ==>
        UrgencyRank(d[i].urgency) <= UrgencyRank(d[j].urgency)
    ensures var d := SortRequests(list);
      forall i, j :: 0 <= i < j < |d| && d[i].status != RequestStatus.Pending && d[j].status != RequestStatus.Pending ==>
        LexLe(d[j].requestDate, d[i].requestDate)
  {
    RequestLeTotalPreorder();
    SortBySorted(list, RequestLe);
  }

  // ---------------------------------------------------------------------------
  // Approve / reject

  /** Approve and Reject buttons are shown only on Pending requests. */
  predicate ActionsOffered(r: BloodRequest)
  {
    r.status == RequestStatus.Pending
  }

  /** The confirmation dialog; its title and description are presentation only. */
  datatype ConfirmDialog = ConfirmDialog(open: bool, action: string)

  const ClosedDialog: ConfirmDialog := ConfirmDialog(false, "")

  /** The page's own state: its copy of the requests, the selection and the dialog. */
  datatype RequestsPage = RequestsPage(requests: seq<BloodRequest>, selected: Option<BloodRequest>, dialog: ConfirmDialog)

  /** Clicking Approve or Reject on a request selects it and opens the dialog for that action. */
  function ClickAction(page: RequestsPage, request: BloodRequest, action: string): (next: RequestsPage)
    ensures next.requests == page.requests && next.selected == Some(request)
    ensures next.dialog == ConfirmDialog(true, action)
  {
    page.(selected := Some(request), dialog := ConfirmDialog(true, action))
  }

  /** The status a confirmed dialog asks for: anything but "approve" rejects. */
  function ActionStatus(action: string): (s: RequestStatus)
    ensures s == RequestStatus.Approved <==> action == "approve"
    ensures s != RequestStatus.Pending
  {
    if action == "approve" then RequestStatus.Approved else RequestStatus.Rejected
  }

  /** `prev.map(req => req.id === id ? { ...req, status } : req)`. */
  function MarkStatus(list: seq<BloodRequest>, id: int, status: RequestStatus): (r: seq<BloodRequest>)
    ensures |r| == |list|
    ensures forall i :: 0 <= i < |list| ==> r[i] == if list[i].id == id then list[i].(status := status) else list[i]
  {
    seq(|list|, i requires 0 <= i < |list| => if list[i].id == id then list[i].(status := status) else list[i])
  }

  /** No two requests of the list share an id. */
  ghost predicate DistinctRequestIds(reqs: seq<BloodRequest>)
  {
    forall i, j :: 0 <= i < j < |reqs| ==> reqs[i].id != reqs[j].id
  }

  /**
   * When no id repeats, the page's update of its copy (every request with
   * the id) equals the store's (the first request with the id), so the two
   * copies stay equal after a confirmed action.
   */
  lemma MarkStatusMatchesStore(list: seq<BloodRequest>, id: int, status: RequestStatus)
    requires DistinctRequestIds(list)
    ensures MarkStatus(list, id, status) == SetRequestStatus(list, id, status)
  {
    RequestStatusEffect([], list, id, status);
    var m := MarkStatus(list, id, status);
    var u := SetRequestStatus(list, id, status);
    forall j | 0 <= j < |list| ensures m[j] == u[j] {
      if list[j].id == id {
        assert forall k :: 0 <= k < j ==> list[k].id != id;
      }
    }
  }

  /** Only the status of the requests with the id changes; every other field and request stays. */
  lemma MarkStatusOnlyTouchesId(list: seq<BloodRequest>, id: int, status: RequestStatus)
    ensures forall i :: 0 <= i < |list| && list[i].id != id ==> MarkStatus(list, id, status)[i] == list[i]
    ensures forall i :: 0 <= i < |list| ==>
      MarkStatus(list, id, status)[i].(status := list[i].status) == list[i]
    ensures forall i :: 0 <= i < |list| && list[i].id == id ==> MarkStatus(list, id, status)[i].status == status
  {
  }

  /**
   * `handleConfirmAction`. With nothing selected it does nothing. Otherwise
   * the store is asked to set the status; on success the page's copy is
   * updated, and either way the selection and the dialog are cleared.
   */
  method HandleConfirmAction(db: Store, page: RequestsPage) returns (next: RequestsPage, toast: Option<string>)
    modifies db
    ensures page.selected.None? ==>
      next == page && toast == None && db.requests == old(db.requests) && db.inventory == old(db.inventory)
    ensures page.selected.Some? ==>
      var status := ActionStatus(page.dialog.action);
      var id := page.selected.value.id;
      var found := RequestIndex(old(db.requests), id).Some?;
      db.requests == SetRequestStatus(old(db.requests), id, status) &&
      db.inventory == InventoryAfterStatus(old(db.inventory), old(db.requests), id, status) &&
      next.requests == (if found then MarkStatus(page.requests, id, status) else page.requests) &&
      next.selected == None && next.dialog == ClosedDialog &&
      toast == Some(if found then StatusMessage(status) + " successfully" else "Request not found")
    ensures db.camps == old(db.camps) && db.appointments == old(db.appointments) && db.history == old(db.history)
    ensures db.donors == old(db.donors) && db.receivers == old(db.receivers)
  {
    if page.selected.None? {
      return page, None;
    }
    var status := ActionStatus(page.dialog.action);
    var id := page.selected.value.id;
    var result := UpdateRequestStatus(db, id, status);
    var requests := page.requests;
    if result.success {
      requests := MarkStatus(requests, id, status);
      toast := Some(StatusMessage(status) + " successfully");
    } else {
      toast := Some(result.message);
    }
    next := RequestsPage(requests, None, ClosedDialog);
  }

  // ---------------------------------------------------------------------------
  // Counts

  datatype StatusCounts = StatusCounts(pending: nat, approved: nat, rejected: nat)

  /** The three summary cards, counted over all requests whatever the filter. */
  function CountByStatus(requests: seq<BloodRequest>): (c: StatusCounts)
    ensures c.pending + c.approved + c.rejected == |requests|
    ensures c.pending > 0 <==> exists i :: 0 <= i < |requests| && requests[i].status == RequestStatus.Pending
    ensures c.approved > 0 <==> exists i :: 0 <= i < |requests| && requests[i].status == RequestStatus.Approved
    ensures c.rejected > 0 <==> exists i :: 0 <= i < |requests| && requests[i].status == RequestStatus.Rejected
  {
    CountPartitionExact(requests, IsPending, IsApproved, IsRejected);
    CountPositive(requests, IsPending);
    CountPositive(requests, IsApproved);
    CountPositive(requests, IsRejected);
    StatusCounts(Count(requests, IsPending), Count(requests, IsApproved), Count(requests, IsRejected))
  }

  /**
   * Confirming an action on a Pending request moves it from the Pending card
   * to the Approved or Rejected card; the third card keeps its count.
   */
  lemma ConfirmMovesOneCount(requests: seq<BloodRequest>, id: int, status: RequestStatus)
    requires status != RequestStatus.Pending
    requires RequestIndex(requests, id).Some? && requests[RequestIndex(requests, id).value].status == RequestStatus.Pending
    ensures var before, after := CountByStatus(requests), CountByStatus(SetRequestStatus(requests, id, status));
      after.pending == before.pending - 1 &&
      after.approved == before.approved + (if status == RequestStatus.Approved then 1 else 0) &&
      after.rejected == before.rejected + (if status == RequestStatus.Rejected then 1 else 0)
  {
    var i := RequestIndex(requests, id).value;
    var v := requests[i].(status := status);
    assert SetRequestStatus(requests, id, status) == requests[i := v];
    CountUpdate(requests, i, v, IsPending);
    CountUpdate(requests, i, v, IsApproved);
    CountUpdate(requests, i, v, IsRejected);
  }
}
