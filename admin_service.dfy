/**
 * The administrator's services: they find a record by key in the shared
 * arrays and change it in place, or append to them.
 */
module AdminService {
  import opened Wrappers
  import opened Text
  import opened Seqs
  import opened Records
  import opened MockData

  // ---------------------------------------------------------------------------
  // Stock thresholds

  /** The stock status `updateBloodInventory` assigns to a quantity. */
  function StatusFor(q: int): (s: StockStatus)
    ensures s == StockStatus.Critical <==> q <= 5
    ensures s == StockStatus.Low <==> 5 < q <= 15
    ensures s == StockStatus.Available <==> 15 < q
  {
    if q <= 5 then StockStatus.Critical
    else if q <= 15 then StockStatus.Low
    else StockStatus.Available
  }

  /** Every entry's stored status is the one its quantity calls for. */
  ghost predicate ThresholdConsistent(inv: seq<InventoryItem>)
  {
    forall i :: 0 <= i < |inv| ==> inv[i].status == StatusFor(inv[i].quantity)
  }

  /**
   * The seed inventory does not follow the threshold rule: B- (10 units) is
   * marked Critical, AB+ (12) Available and O- (20) Low; the other five agree.
   */
  lemma SeedViolatesThresholds()
    ensures !ThresholdConsistent(SeedInventory)
    ensures forall i :: 0 <= i < |SeedInventory| ==>
      (SeedInventory[i].status != StatusFor(SeedInventory[i].quantity) <==> i in {3, 4, 7})
  {
    assert SeedInventory[3].status != StatusFor(SeedInventory[3].quantity);
  }

  /** No blood type appears twice. */
  ghost predicate DistinctTypes(inv: seq<InventoryItem>)
  {
    forall i, j :: 0 <= i < j < |inv| ==> inv[i].bloodType != inv[j].bloodType
  }

  /** The seed inventory lists eight different blood types. */
  lemma SeedDistinctTypes()
    ensures DistinctTypes(SeedInventory)
  {
  }

  // ---------------------------------------------------------------------------
  // updateBloodInventory

  /** Index `j` holds the first entry of type `t`. */
  ghost predicate FirstOfType(inv: seq<InventoryItem>, t: string, j: int)
  {
    0 <= j < |inv| && inv[j].bloodType == t && forall k :: 0 <= k < j ==> inv[k].bloodType != t
  }

  /** `bloodInventory.findIndex(item => item.type === t)`. */
  function TypeIndex(inv: seq<InventoryItem>, t: string): (r: Option<nat>)
    ensures r.Some? <==> exists j :: FirstOfType(inv, t, j)
    ensures r.Some? ==> FirstOfType(inv, t, r.value)
  {
    var p := (item: InventoryItem) => item.bloodType == t;
    var r := FindIndex(inv, p);
    assert forall j :: 0 <= j < |inv| ==> (p(inv[j]) <==> inv[j].bloodType == t);
    assert r.Some? ==> FirstOfType(inv, t, r.value);
    assert r.None? ==> forall j :: !FirstOfType(inv, t, j);
    r
  }

  /** The inventory after `updateBloodInventory(t, q)`. */
  function SetQuantity(inv: seq<InventoryItem>, t: string, q: int): seq<InventoryItem>
  {
    match TypeIndex(inv, t)
    case None => inv
    case Some(i) => inv[i := InventoryItem(inv[i].bloodType, q, StatusFor(q))]
  }

  /**
   * Only the first entry of type `t` changes: it gets quantity `q` and the
   * status the thresholds give `q`; without such an entry nothing changes.
   * There is no check that `q` is not negative.
   */
  lemma SetQuantityEffect(inv: seq<InventoryItem>, t: string, q: int)
    ensures |SetQuantity(inv, t, q)| == |inv|
    ensures forall j :: 0 <= j < |inv| ==>
      SetQuantity(inv, t, q)[j] == if FirstOfType(inv, t, j) then InventoryItem(t, q, StatusFor(q)) else inv[j]
    ensures (forall j :: 0 <= j < |inv| ==> inv[j].bloodType != t) ==> SetQuantity(inv, t, q) == inv
  {
    match TypeIndex(inv, t)
    case None =>
    case Some(i) =>
      assert forall j :: FirstOfType(inv, t, j) ==> j == i;
  }

  /** Setting a quantity through the service keeps a threshold-consistent inventory consistent. */
  lemma SetQuantityKeepsThresholds(inv: seq<InventoryItem>, t: string, q: int)
    requires ThresholdConsistent(inv)
    ensures ThresholdConsistent(SetQuantity(inv, t, q))
  {
    SetQuantityEffect(inv, t, q);
  }

  /** `updateBloodInventory(bloodType, quantity)` on the shared inventory. */
  method UpdateBloodInventory(db: Store, bloodType: string, quantity: int) returns (r: Response<InventoryItem>)
    modifies db
    ensures db.inventory == SetQuantity(old(db.inventory), bloodType, quantity)
    ensures db.requests == old(db.requests) && db.camps == old(db.camps)
    ensures db.appointments == old(db.appointments) && db.history == old(db.history)
    ensures db.donors == old(db.donors) && db.receivers == old(db.receivers)
    ensures match TypeIndex(old(db.inventory), bloodType)
      case Some(i) => r == Response(true, "Inventory updated successfully", Some(db.inventory[i]))
      case None => r == Response(false, "Blood type not found", None)
  {
    var index := TypeIndex(db.inventory, bloodType);
    if index.Some? {
      var i := index.value;
      db.inventory := db.inventory[i := db.inventory[i].(quantity := quantity)];
      if quantity <= 5 {
        db.inventory := db.inventory[i := db.inventory[i].(status := StockStatus.Critical)];
      } else if quantity <= 15 {
        db.inventory := db.inventory[i := db.inventory[i].(status := StockStatus.Low)];
      } else {
        db.inventory := db.inventory[i := db.inventory[i].(status := StockStatus.Available)];
      }
      return Response(true, "Inventory updated successfully", Some(db.inventory[i]));
    }
    return Response(false, "Blood type not found", None);
  }

  // ---------------------------------------------------------------------------
  // updateRequestStatus

  /** `bloodRequests.findIndex(req => req.id === id)`. */
  function RequestIndex(reqs: seq<BloodRequest>, id: int): (r: Option<nat>)
    ensures r.Some? ==> r.value < |reqs| && reqs[r.value].id == id
    ensures r.Some? ==> forall k :: 0 <= k < r.value ==> reqs[k].id != id
    ensures r.None? <==> forall k :: 0 <= k < |reqs| ==> reqs[k].id != id
  {
    FindIndex(reqs, (req: BloodRequest) => req.id == id)
  }

  /** The first request with the id is the one `findIndex` finds. */
  lemma RequestIndexIs(reqs: seq<BloodRequest>, id: int, i: nat)
    requires i < |reqs| && reqs[i].id == id
    requires forall k :: 0 <= k < i ==> reqs[k].id != id
    ensures RequestIndex(reqs, id) == Some(i)
  {
  }

  /** The request list after the status of request `id` is set to `status`. */
  function SetRequestStatus(reqs: seq<BloodRequest>, id: int, status: RequestStatus): seq<BloodRequest>
  {
    match RequestIndex(reqs, id)
    case None => reqs
    case Some(i) => reqs[i := reqs[i].(status := status)]
  }

  /**
   * The status an approval leaves on an entry whose quantity became `q`:
   * Critical or Low below the thresholds, otherwise the status it had.
   */
  function StatusAfterApproval(previous: StockStatus, q: int): (s: StockStatus)
    ensures q <= 15 ==> s == StatusFor(q)
    ensures 15 < q ==> s == previous
  {
    if q <= 5 then StockStatus.Critical
    else if q <= 15 then StockStatus.Low
    else previous
  }

  /** The inventory after `units` of type `t` are handed out. */
  function Deduct(inv: seq<InventoryItem>, t: string, units: int): seq<InventoryItem>
  {
    match TypeIndex(inv, t)
    case None => inv
    case Some(i) =>
      var q := inv[i].quantity - units;
      inv[i := InventoryItem(inv[i].bloodType, q, StatusAfterApproval(inv[i].status, q))]
  }

  /**
   * The first entry of type `t` loses exactly `units`, with no floor at zero;
   * every other entry is untouched; an unknown type changes nothing.
   */
  lemma DeductEffect(inv: seq<InventoryItem>, t: string, units: int)
    ensures |Deduct(inv, t, units)| == |inv|
    ensures forall j :: 0 <= j < |inv| ==>
      Deduct(inv, t, units)[j] ==
        if FirstOfType(inv, t, j) then
          InventoryItem(t, inv[j].quantity - units, StatusAfterApproval(inv[j].status, inv[j].quantity - units))
        else inv[j]
    ensures (forall j :: 0 <= j < |inv| ==> inv[j].bloodType != t) ==> Deduct(inv, t, units) == inv
  {
    match TypeIndex(inv, t)
    case None =>
    case Some(i) =>
      assert forall j :: FirstOfType(inv, t, j) ==> j == i;
  }

  /**
   * An approval of a non-negative number of units keeps a threshold-consistent
   * inventory consistent: when the new quantity is above 15 the old one was too,
   * so the status it keeps was already Available.
   */
  lemma DeductKeepsThresholds(inv: seq<InventoryItem>, t: string, units: int)
    requires ThresholdConsistent(inv)
    requires units >= 0
    ensures ThresholdConsistent(Deduct(inv, t, units))
  {
    DeductEffect(inv, t, units);
  }

  function QuantityOf(item: InventoryItem): int
  {
    item.quantity
  }

  /** An approval lowers the total stock by exactly the approved units. */
  lemma DeductTotal(inv: seq<InventoryItem>, t: string, units: int)
    requires TypeIndex(inv, t).Some?
    ensures Sum(Deduct(inv, t, units), QuantityOf) == Sum(inv, QuantityOf) - units
  {
    var i := TypeIndex(inv, t).value;
    var q := inv[i].quantity - units;
    var item := InventoryItem(inv[i].bloodType, q, StatusAfterApproval(inv[i].status, q));
    assert Deduct(inv, t, units) == inv[i := item];
    SumUpdate(inv, i, item, QuantityOf);
  }

  /** Approving 10 units of AB- from the seed stock of 5 leaves -5 units, marked Critical. */
  lemma DeductCanGoNegative()
    ensures Deduct(SeedInventory, "AB-", 10)[5] == InventoryItem("AB-", -5, StockStatus.Critical)
  {
    assert TypeIndex(SeedInventory, "AB-") == Some(5);
  }

  /** The inventory after `updateRequestStatus(id, status)`. */
  function InventoryAfterStatus(inv: seq<InventoryItem>, reqs: seq<BloodRequest>, id: int, status: RequestStatus)
    : seq<InventoryItem>
  {
    match RequestIndex(reqs, id)
    case None => inv
    case Some(i) => if status == RequestStatus.Approved then Deduct(inv, reqs[i].bloodType, reqs[i].units) else inv
  }

  /** The message of a successful `updateRequestStatus`, e.g. "Request approved". */
  function StatusMessage(status: RequestStatus): string
  {
    "Request " + Lower(RequestStatusName(status))
  }

  /**
   * Setting a status changes only the status of the first request with that
   * id; an unknown id changes no request, and only an approval of a known
   * id touches the inventory. Nothing requires the request to be Pending.
   */
  lemma RequestStatusEffect(inv: seq<InventoryItem>, reqs: seq<BloodRequest>, id: int, status: RequestStatus)
    ensures |SetRequestStatus(reqs, id, status)| == |reqs|
    ensures forall j :: 0 <= j < |reqs| ==>
      SetRequestStatus(reqs, id, status)[j] ==
        if reqs[j].id == id && (forall k :: 0 <= k < j ==> reqs[k].id != id) then reqs[j].(status := status)
        else reqs[j]
    ensures status != RequestStatus.Approved ==> InventoryAfterStatus(inv, reqs, id, status) == inv
    ensures (forall k :: 0 <= k < |reqs| ==> reqs[k].id != id) ==>
      SetRequestStatus(reqs, id, status) == reqs && InventoryAfterStatus(inv, reqs, id, status) == inv
  {
  }

  /**
   * Approving the same request twice hands its units out twice: a request
   * for `u` units of a stocked type lowers that entry by `2 * u`.
   */
  lemma ApproveTwice(inv: seq<InventoryItem>, reqs: seq<BloodRequest>, i: nat, k: nat)
    requires i < |reqs| && RequestIndex(reqs, reqs[i].id) == Some(i)
    requires FirstOfType(inv, reqs[i].bloodType, k)
    ensures var id := reqs[i].id;
      var reqs1 := SetRequestStatus(reqs, id, RequestStatus.Approved);
      var inv1 := InventoryAfterStatus(inv, reqs, id, RequestStatus.Approved);
      var inv2 := InventoryAfterStatus(inv1, reqs1, id, RequestStatus.Approved);
      inv2[k].quantity == inv[k].quantity - 2 * reqs[i].units
  {
    var id := reqs[i].id;
    var t := reqs[i].bloodType;
    var u := reqs[i].units;
    var reqs1 := SetRequestStatus(reqs, id, RequestStatus.Approved);
    var inv1 := Deduct(inv, t, u);
    DeductEffect(inv, t, u);
    RequestIndexIs(reqs1, id, i);
    assert FirstOfType(inv1, t, k);
    DeductEffect(inv1, t, u);
  }

  /** `updateRequestStatus(requestId, status)` on the shared arrays. */
  method UpdateRequestStatus(db: Store, requestId: int, status: RequestStatus) returns (r: Response<BloodRequest>)
    modifies db
    ensures db.requests == SetRequestStatus(old(db.requests), requestId, status)
    ensures db.inventory == InventoryAfterStatus(old(db.inventory), old(db.requests), requestId, status)
    ensures db.camps == old(db.camps) && db.appointments == old(db.appointments)
    ensures db.history == old(db.history) && db.donors == old(db.donors) && db.receivers == old(db.receivers)
    ensures match RequestIndex(old(db.requests), requestId)
      case Some(i) => r == Response(true, StatusMessage(status), Some(db.requests[i]))
      case None => r == Response(false, "Request not found", None)
  {
    var index := RequestIndex(db.requests, requestId);
    if index.Some? {
      var i := index.value;
      db.requests := db.requests[i := db.requests[i].(status := status)];
      if status == RequestStatus.Approved {
        var request := db.requests[i];
        var typeIndex := TypeIndex(db.inventory, request.bloodType);
        if typeIndex.Some? {
          var k := typeIndex.value;
          db.inventory := db.inventory[k := db.inventory[k].(quantity := db.inventory[k].quantity - request.units)];
          if db.inventory[k].quantity <= 5 {
            db.inventory := db.inventory[k := db.inventory[k].(status := StockStatus.Critical)];
          } else if db.inventory[k].quantity <= 15 {
            db.inventory := db.inventory[k := db.inventory[k].(status := StockStatus.Low)];
          }
        }
      }
      return Response(true, StatusMessage(status), Some(db.requests[i]));
    }
    return Response(false, "Request not found", None);
  }

  // ---------------------------------------------------------------------------
  // addDonationCamp / updateDonationCamp

  /** `{ id: length + 1, ...campData, status: 'Upcoming' }`. */
  function NewCamp(camps: seq<DonationCamp>, form: CampForm): (c: DonationCamp)
    ensures c.id == |camps| + 1 && c.status == CampStatus.Upcoming
    ensures c.name == form.name && c.location == form.location && c.date == form.date
    ensures c.time == form.time && c.organizer == form.organizer
    ensures c.contactPhone == form.contactPhone && c.slots == form.slots && c.description == form.description
  {
    DonationCamp(|camps| + 1, form.name, form.location, form.date, form.time, form.organizer,
                 form.contactPhone, CampStatus.Upcoming, form.slots, form.description)
  }

  /** A camp added to a list numbered 1..n gets an id no camp had, and the list stays numbered. */
  lemma NewCampFresh(camps: seq<DonationCamp>, form: CampForm)
    requires SequentialIds(camps, (c: DonationCamp) => c.id)
    ensures SequentialIds(camps + [NewCamp(camps, form)], (c: DonationCamp) => c.id)
    ensures forall i :: 0 <= i < |camps| ==> camps[i].id != NewCamp(camps, form).id
  {
    AppendSequential(camps, NewCamp(camps, form), (c: DonationCamp) => c.id);
  }

  method AddDonationCamp(db: Store, campData: CampForm) returns (r: Response<DonationCamp>)
    modifies db
    ensures db.camps == old(db.camps) + [NewCamp(old(db.camps), campData)]
    ensures db.inventory == old(db.inventory) && db.requests == old(db.requests)
    ensures db.appointments == old(db.appointments) && db.history == old(db.history)
    ensures db.donors == old(db.donors) && db.receivers == old(db.receivers)
    ensures r == Response(true, "Donation camp added successfully", Some(NewCamp(old(db.camps), campData)))
  {
    var newCamp := NewCamp(db.camps, campData);
    db.camps := db.camps + [newCamp];
    return Response(true, "Donation camp added successfully", Some(newCamp));
  }

  /** `{ ...camp, ...campData }`: every form field overrides; id and status stay. */
  function MergeCamp(camp: DonationCamp, form: CampForm): (c: DonationCamp)
    ensures c.id == camp.id && c.status == camp.status
    ensures c.name == form.name && c.location == form.location && c.date == form.date
    ensures c.time == form.time && c.organizer == form.organizer
    ensures c.contactPhone == form.contactPhone && c.slots == form.slots && c.description == form.description
  {
    camp.(name := form.name, location := form.location, date := form.date, time := form.time,
          organizer := form.organizer, contactPhone := form.contactPhone, slots := form.slots,
          description := form.description)
  }

  /** `donationCamps.findIndex(camp => camp.id === campId)`. */
  function CampIndex(camps: seq<DonationCamp>, campId: int): (r: Option<nat>)
    ensures r.Some? ==> r.value < |camps| && camps[r.value].id == campId
    ensures r.Some? ==> forall k :: 0 <= k < r.value ==> camps[k].id != campId
    ensures r.None? <==> forall k :: 0 <= k < |camps| ==> camps[k].id != campId
  {
    FindIndex(camps, (c: DonationCamp) => c.id == campId)
  }

  function UpdateCamps(camps: seq<DonationCamp>, campId: int, form: CampForm): seq<DonationCamp>
  {
    match CampIndex(camps, campId)
    case None => camps
    case Some(i) => camps[i := MergeCamp(camps[i], form)]
  }

  /** Only the first camp with the id is merged; an unknown id changes nothing. */
  lemma UpdateCampsEffect(camps: seq<DonationCamp>, campId: int, form: CampForm)
    ensures |UpdateCamps(camps, campId, form)| == |camps|
    ensures forall j :: 0 <= j < |camps| ==>
      UpdateCamps(camps, campId, form)[j] ==
        if camps[j].id == campId && (forall k :: 0 <= k < j ==> camps[k].id != campId) then MergeCamp(camps[j], form)
        else camps[j]
    ensures (forall k :: 0 <= k < |camps| ==> camps[k].id != campId) ==> UpdateCamps(camps, campId, form) == camps
  {
  }

  method UpdateDonationCamp(db: Store, campId: int, campData: CampForm) returns (r: Response<DonationCamp>)
    modifies db
    ensures db.camps == UpdateCamps(old(db.camps), campId, campData)
    ensures db.inventory == old(db.inventory) && db.requests == old(db.requests)
    ensures db.appointments == old(db.appointments) && db.history == old(db.history)
    ensures db.donors == old(db.donors) && db.receivers == old(db.receivers)
    ensures match CampIndex(old(db.camps), campId)
      case Some(i) => r == Response(true, "Donation camp updated successfully", Some(db.camps[i]))
      case None => r == Response(false, "Donation camp not found", None)
  {
    var index := CampIndex(db.camps, campId);
    if index.Some? {
      var i := index.value;
      db.camps := db.camps[i := MergeCamp(db.camps[i], campData)];
      return Response(true, "Donation camp updated successfully", Some(db.camps[i]));
    }
    return Response(false, "Donation camp not found", None);
  }
}
