/**
 * The records of the blood bank: what the mock arrays hold and what the
 * pages pass to the services. Field names follow the JavaScript objects;
 * the inventory field `type` is called `bloodType` here.
 */
module Records {
  import opened Wrappers

  /** Stock level of one blood type, as stored in the inventory. */
  datatype StockStatus = Available | Low | Critical

  datatype RequestStatus = Pending | Approved | Rejected

  datatype Urgency = Critical | High | Medium | Low

  datatype CampStatus = Upcoming | Completed

  datatype AppointmentStatus = Scheduled | Completed | Cancelled

  /** The text each status carries in the JavaScript objects. */
  function StockStatusName(s: StockStatus): string
  {
    match s
    case Available => "Available"
    case Low => "Low"
    case Critical => "Critical"
  }

  function RequestStatusName(s: RequestStatus): string
  {
    match s
    case Pending => "Pending"
    case Approved => "Approved"
    case Rejected => "Rejected"
  }

  predicate IsPending(r: BloodRequest) { r.status == RequestStatus.Pending }

  predicate IsApproved(r: BloodRequest) { r.status == RequestStatus.Approved }

  predicate IsRejected(r: BloodRequest) { r.status == RequestStatus.Rejected }

  function UrgencyName(u: Urgency): string
  {
    match u
    case Critical => "Critical"
    case High => "High"
    case Medium => "Medium"
    case Low => "Low"
  }

  datatype InventoryItem = InventoryItem(bloodType: string, quantity: int, status: StockStatus)

  datatype Donor = Donor(
    id: int, name: string, email: string, bloodType: string, age: int, gender: string,
    phone: string, address: string, lastDonation: string, donations: int)

  /** `bloodType` and `hospital` are optional: the receivers page guards both. */
  datatype Receiver = Receiver(
    id: int, name: string, email: string, bloodType: Option<string>, age: int, gender: string,
    phone: string, address: string, medicalCondition: string, hospital: Option<string>)

  datatype BloodRequest = BloodRequest(
    id: int, receiverId: int, receiverName: string, bloodType: string, units: int,
    requestDate: string, status: RequestStatus, urgency: Urgency, hospital: string, reason: string)

  /** What the blood-search page hands to `requestBlood`. */
  datatype RequestData = RequestData(
    receiverId: int, receiverName: string, bloodType: string, units: int,
    hospital: string, urgency: Urgency, reason: string)

  datatype DonationCamp = DonationCamp(
    id: int, name: string, location: string, date: string, time: string, organizer: string,
    contactPhone: string, status: CampStatus, slots: int, description: string)

  /** The camp form of the admin camps page; also what the camp services receive. */
  datatype CampForm = CampForm(
    name: string, location: string, date: string, time: string, organizer: string,
    contactPhone: string, slots: int, description: string)

  datatype Appointment = Appointment(
    id: int, donorId: int, donorName: string, campId: int, campName: string,
    date: string, time: string, status: AppointmentStatus)

  /** What the donation-camps page hands to `bookAppointment`. */
  datatype AppointmentData = AppointmentData(
    donorId: int, donorName: string, campId: int, campName: string, date: string, time: string)

  datatype DonationRecord = DonationRecord(
    id: int, donorId: int, donorName: string, bloodType: string, amount: string,
    date: string, center: string, status: string)

  /**
   * The optional fields a user object may carry besides name and email:
   * the seed users have only `bloodType` (the donor), registered users
   * carry the fields the registration form sends.
   */
  datatype Profile = Profile(
    name: string, email: string, bloodType: Option<string>, age: Option<int>,
    gender: Option<string>, phone: Option<string>, address: Option<string>,
    medicalCondition: Option<string>, hospital: Option<string>)

  /** A user as stored in the user list, password included. */
  datatype User = User(id: int, profile: Profile, password: string, role: string)

  /** A user with the password field deleted: what the session holds. */
  datatype Identity = Identity(id: int, profile: Profile, role: string)

  function WithoutPassword(u: User): (r: Identity)
    ensures r.id == u.id && r.profile == u.profile && r.role == u.role
  {
    Identity(u.id, u.profile, u.role)
  }

  /** The `userData` the registration page sends: the profile fields and the password. */
  datatype Registration = Registration(profile: Profile, password: string)

  /** What a form handler leaves on screen: the error text ("" for none) and where it navigated. */
  datatype FormOutcome = FormOutcome(error: string, navigateTo: Option<string>)

  /** The `{ success, message, data }` objects the services resolve to. */
  datatype Response<T> = Response(success: bool, message: string, data: Option<T>)

  /** Ids `1..|s|` in order, as every seed collection has them. */
  ghost predicate SequentialIds<T>(s: seq<T>, id: T -> int)
  {
    forall i :: 0 <= i < |s| ==> id(s[i]) == i + 1
  }

  /**
   * Appending a record numbered `|s| + 1` to a collection numbered `1..|s|`
   * keeps the numbering, and the new number is used by no earlier record.
   */
  lemma AppendSequential<T>(s: seq<T>, x: T, id: T -> int)
    requires SequentialIds(s, id)
    requires id(x) == |s| + 1
    ensures SequentialIds(s + [x], id)
    ensures forall i :: 0 <= i < |s| ==> id(s[i]) != id(x)
  {
    assert forall i :: 0 <= i < |s| ==> (s + [x])[i] == s[i];
  }
}
