/** The receiver's services: a lookup, a filter and an append on the shared arrays. */
module ReceiverService {
  import opened Wrappers
  import opened Text
  import opened Seqs
  import opened Records
  import opened MockData

  /** `bloodInventory.find(item => item.type === bloodType)`. */
  function SearchBloodByType(inv: seq<InventoryItem>, bloodType: string): (r: Option<InventoryItem>)
    ensures r.None? <==> forall j :: 0 <= j < |inv| ==> inv[j].bloodType != bloodType
    ensures r.Some? ==> exists i :: 0 <= i < |inv| && inv[i] == r.value && r.value.bloodType == bloodType &&
                                    forall k :: 0 <= k < i ==> inv[k].bloodType != bloodType
  {
    Find(inv, (item: InventoryItem) => item.bloodType == bloodType)
  }

  /** `bloodRequests.filter(request => request.receiverId === receiverId)`. */
  function GetReceiverRequests(reqs: seq<BloodRequest>, receiverId: int): (r: seq<BloodRequest>)
    ensures forall i :: 0 <= i < |r| ==> r[i].receiverId == receiverId && r[i] in reqs
    ensures forall i :: 0 <= i < |reqs| && reqs[i].receiverId == receiverId ==> reqs[i] in r
    ensures Subseq(r, reqs)
    ensures multiset(r) <= multiset(reqs)
    ensures forall i :: 0 <= i < |reqs| && reqs[i].receiverId == receiverId ==> multiset(r)[reqs[i]] == multiset(reqs)[reqs[i]]
  {
    var p := (q: BloodRequest) => q.receiverId == receiverId;
    FilterMultiset(reqs, p);
    Filter(reqs, p)
  }

  /** `{ id: length + 1, ...requestData, requestDate: <today>, status: 'Pending' }`. */
  function NewRequest(reqs: seq<BloodRequest>, data: RequestData, nowIso: string): (r: BloodRequest)
    ensures r.id == |reqs| + 1 && r.status == RequestStatus.Pending
    ensures r.requestDate == FirstPiece(nowIso, "T")
    ensures r.receiverId == data.receiverId && r.receiverName == data.receiverName
    ensures r.bloodType == data.bloodType && r.units == data.units && r.hospital == data.hospital
    ensures r.urgency == data.urgency && r.reason == data.reason
  {
    BloodRequest(|reqs| + 1, data.receiverId, data.receiverName, data.bloodType, data.units,
                 FirstPiece(nowIso, "T"), RequestStatus.Pending, data.urgency, data.hospital, data.reason)
  }

  /** The request date is the calendar-date part of the ISO timestamp of the moment of the request. */
  lemma NewRequestDate(reqs: seq<BloodRequest>, data: RequestData, date: string, clock: string)
    requires 'T' !in date
    ensures NewRequest(reqs, data, date + "T" + clock).requestDate == date
  {
    FirstPieceBefore(date, 'T', clock);
  }

  /** A request added to a list numbered 1..n gets an id no request had, and the list stays numbered. */
  lemma NewRequestFresh(reqs: seq<BloodRequest>, data: RequestData, nowIso: string)
    requires SequentialIds(reqs, (q: BloodRequest) => q.id)
    ensures SequentialIds(reqs + [NewRequest(reqs, data, nowIso)], (q: BloodRequest) => q.id)
    ensures forall i :: 0 <= i < |reqs| ==> reqs[i].id != NewRequest(reqs, data, nowIso).id
  {
    AppendSequential(reqs, NewRequest(reqs, data, nowIso), (q: BloodRequest) => q.id);
  }

  /**
   * `requestBlood(requestData)`. `nowIso` is `new Date().toISOString()`, the
   * clock reading the service takes.
   */
  method RequestBlood(db: Store, requestData: RequestData, nowIso: string) returns (r: BloodRequest)
    modifies db
    ensures db.requests == old(db.requests) + [NewRequest(old(db.requests), requestData, nowIso)]
    ensures db.inventory == old(db.inventory) && db.camps == old(db.camps)
    ensures db.appointments == old(db.appointments) && db.history == old(db.history)
    ensures db.donors == old(db.donors) && db.receivers == old(db.receivers)
    ensures r == NewRequest(old(db.requests), requestData, nowIso)
  {
    var newRequest := NewRequest(db.requests, requestData, nowIso);
    db.requests := db.requests + [newRequest];
    return newRequest;
  }

  /** `updateReceiverProfile`: stores nothing and reports success with the data it was given. */
  function UpdateReceiverProfile(receiverId: int, profileData: Profile): (r: Response<Profile>)
    ensures r.success && r.data == Some(profileData)
    ensures r.message == "Profile updated successfully"
  {
    Response(true, "Profile updated successfully", Some(profileData))
  }
}
