/**
 * The receiver's blood search: filtering the inventory by type, and the
 * request dialog that sends a blood request.
 */
module BloodSearch {
  import opened Wrappers
  import opened Text
  import opened Seqs
  import opened Records
  import opened MockData
  import opened AdminService
  import opened ReceiverService

  /**
   * The page's state. `units` is the text of the units box; it starts as the
   * number 1, which `parseInt(units, 10)` reads as "1" does.
   */
  datatype SearchPage = SearchPage(
    inventory: seq<InventoryItem>, searchType: string, filtered: seq<InventoryItem>,
    selectedBloodType: string, units: string, hospital: string, urgency: Urgency, reason: string,
    dialogOpen: bool)

  /** The page once the inventory has loaded, for the signed-in receiver. */
  function LoadedPage(user: Identity, inventory: seq<InventoryItem>): (page: SearchPage)
    ensures page.inventory == inventory && page.filtered == inventory && page.searchType == ""
    ensures page.units == "1" && page.urgency == Urgency.Medium && page.reason == "" && !page.dialogOpen
    ensures page.hospital == user.profile.hospital.GetOr("")
  {
    SearchPage(inventory, "", inventory, "", "1", user.profile.hospital.GetOr(""), Urgency.Medium, "", false)
  }

  /** `handleSearch`: no type shows everything, a type shows its entries. */
  function HandleSearch(page: SearchPage): (next: SearchPage)
    ensures next == page.(filtered := next.filtered)
    ensures page.searchType == "" ==> next.filtered == page.inventory
    ensures forall i :: 0 <= i < |next.filtered| ==>
      next.filtered[i] in page.inventory && (page.searchType != "" ==> next.filtered[i].bloodType == page.searchType)
    ensures forall i :: 0 <= i < |page.inventory| && page.inventory[i].bloodType == page.searchType ==>
      page.inventory[i] in next.filtered
    ensures Subseq(next.filtered, page.inventory)
    ensures multiset(next.filtered) <= multiset(page.inventory)
    ensures forall i :: 0 <= i < |page.inventory| && (page.searchType == "" || page.inventory[i].bloodType == page.searchType) ==>
      multiset(next.filtered)[page.inventory[i]] == multiset(page.inventory)[page.inventory[i]]
  {
    if page.searchType == "" then
      SubseqRefl(page.inventory);
      page.(filtered := page.inventory)
    else
      var p := (blood: InventoryItem) => blood.bloodType == page.searchType;
      var r := Filter(page.inventory, p);
      FilterMultiset(page.inventory, p);
      assert forall i :: 0 <= i < |r| ==> p(r[i]);
      assert forall i :: 0 <= i < |page.inventory| ==> (p(page.inventory[i]) <==> page.inventory[i].bloodType == page.searchType);
      page.(filtered := r)
  }

  /** When one entry has the searched type, the search shows that entry alone. */
  lemma SearchSingleEntry(page: SearchPage, k: nat)
    requires k < |page.inventory| && page.searchType != ""
    requires page.inventory[k].bloodType == page.searchType
    requires forall j :: 0 <= j < |page.inventory| && j != k ==> page.inventory[j].bloodType != page.searchType
    ensures HandleSearch(page).filtered == [page.inventory[k]]
  {
    var inv := page.inventory;
    var p := (blood: InventoryItem) => blood.bloodType == page.searchType;
    assert inv == inv[..k] + [inv[k]] + inv[k + 1..];
    FilterAppend(inv[..k] + [inv[k]], inv[k + 1..], p);
    FilterAppend(inv[..k], [inv[k]], p);
    FilterNone(inv[..k], p);
    FilterNone(inv[k + 1..], p);
  }

  /** Searching a type of the seed inventory shows exactly its one entry. */
  lemma SearchSeedType(user: Identity, k: nat)
    requires k < |BloodTypes|
    ensures var next := HandleSearch(LoadedPage(user, SeedInventory).(searchType := BloodTypes[k]));
      next.filtered == [SeedInventory[k]] && SeedInventory[k].bloodType == BloodTypes[k]
  {
    SeedInventoryTypes();
    SearchSingleEntry(LoadedPage(user, SeedInventory).(searchType := BloodTypes[k]), k);
  }

  /** The request button is greyed out for Critical stock or no units. */
  predicate RequestDisabled(blood: InventoryItem)
  {
    blood.status == StockStatus.Critical || blood.quantity == 0
  }

  /**
   * When every stored status follows the thresholds, a type can be requested
   * exactly when more than five units are in stock.
   */
  lemma RequestEnabledAboveFive(inv: seq<InventoryItem>, i: nat)
    requires ThresholdConsistent(inv) && i < |inv|
    ensures !RequestDisabled(inv[i]) <==> inv[i].quantity > 5
  {
  }

  /** In the seed data AB- (5 units) and B- (10 units, marked Critical) cannot be requested. */
  lemma SeedRequestable()
    ensures forall i :: 0 <= i < |SeedInventory| ==> (RequestDisabled(SeedInventory[i]) <==> i == 3 || i == 5)
  {
  }

  /** `handleRequestBlood`: remember the type and open the dialog. */
  function HandleRequestBlood(page: SearchPage, bloodType: string): (next: SearchPage)
    ensures next == page.(selectedBloodType := bloodType, dialogOpen := true)
  {
    page.(selectedBloodType := bloodType, dialogOpen := true)
  }

  /** The `requestData` built from the dialog. */
  function RequestFromDialog(user: Identity, page: SearchPage, units: int): (d: RequestData)
    ensures d.receiverId == user.id && d.receiverName == user.profile.name
    ensures d.bloodType == page.selectedBloodType && d.units == units
    ensures d.hospital == page.hospital && d.urgency == page.urgency && d.reason == page.reason
  {
    RequestData(user.id, user.profile.name, page.selectedBloodType, units, page.hospital, page.urgency, page.reason)
  }

  /** After a submission the dialog closes and is reset; the hospital is kept. */
  function ResetDialog(page: SearchPage): (next: SearchPage)
    ensures next == page.(dialogOpen := false, selectedBloodType := "", units := "1", urgency := Urgency.Medium, reason := "")
  {
    page.(dialogOpen := false, selectedBloodType := "", units := "1", urgency := Urgency.Medium, reason := "")
  }

  /**
   * Opening the dialog from a type's row makes the request that type and
   * leaves the search results alone; resetting afterwards forgets the choice,
   * as if the dialog had not been opened.
   */
  lemma RequestDialogOpens(user: Identity, page: SearchPage, bloodType: string, units: int)
    ensures var chosen := HandleRequestBlood(page, bloodType);
      chosen.dialogOpen && RequestFromDialog(user, chosen, units).bloodType == bloodType &&
      chosen.filtered == page.filtered && chosen.inventory == page.inventory &&
      ResetDialog(chosen) == ResetDialog(page)
  {
  }

  /**
   * After a submission the dialog holds what it held when the page loaded:
   * the next request starts from units "1", Medium urgency, no reason and no
   * type, with the user's hospital when it was not edited.
   */
  lemma ResetRestoresLoadedDialog(user: Identity, page: SearchPage)
    requires page.hospital == user.profile.hospital.GetOr("")
    ensures ResetDialog(page) ==
      LoadedPage(user, page.inventory).(searchType := page.searchType, filtered := page.filtered)
    ensures ResetDialog(ResetDialog(page)) == ResetDialog(page)
  {
  }

  /**
   * `submitRequest`. An empty hospital or reason is refused. Otherwise the
   * request is sent with the units `parseInt` reads, and the dialog is reset.
   * `nowIso` is the service's clock reading.
   */
  method SubmitRequest(db: Store, user: Identity, page: SearchPage, nowIso: string)
    returns (next: SearchPage, toast: Option<string>)
    modifies db
    ensures page.hospital == "" || page.reason == "" ==>
      next == page && toast == Some("Please fill all required fields") && db.requests == old(db.requests)
    ensures page.hospital != "" && page.reason != "" && ParseInt(page.units).Some? ==>
      var data := RequestFromDialog(user, page, ParseInt(page.units).value);
      db.requests == old(db.requests) + [NewRequest(old(db.requests), data, nowIso)] &&
      next == ResetDialog(page) && toast == Some("Blood request submitted successfully")
    ensures page.hospital != "" && page.reason != "" && ParseInt(page.units).None? ==>
      next == page && toast == None && db.requests == old(db.requests)
    ensures db.inventory == old(db.inventory) && db.camps == old(db.camps)
    ensures db.appointments == old(db.appointments) && db.history == old(db.history)
    ensures db.donors == old(db.donors) && db.receivers == old(db.receivers)
  {
    if page.hospital == "" || page.reason == "" {
      return page, Some("Please fill all required fields");
    }
    var units := ParseInt(page.units);
    if units.None? {
      return page, None;
    }
    var data := RequestFromDialog(user, page, units.value);
    var _ := RequestBlood(db, data, nowIso);
    return ResetDialog(page), Some("Blood request submitted successfully");
  }

  /**
   * A submitted request joins the end of the receiver's own request list,
   * as a Pending request with the next id.
   */
  lemma SubmittedRequestListed(reqs: seq<BloodRequest>, data: RequestData, nowIso: string)
    ensures var n := NewRequest(reqs, data, nowIso);
      GetReceiverRequests(reqs + [n], data.receiverId) == GetReceiverRequests(reqs, data.receiverId) + [n] &&
      n.status == RequestStatus.Pending && n.id == |reqs| + 1
  {
    var n := NewRequest(reqs, data, nowIso);
    var p := (q: BloodRequest) => q.receiverId == data.receiverId;
    FilterAppend(reqs, [n], p);
    assert Filter([n], p) == [n];
  }
}
