/** The donor's services: filters over the shared arrays and an append. */
module DonorService {
  import opened Wrappers
  import opened Seqs
  import opened Records
  import opened MockData

  /** `donationCamps.filter(camp => camp.status === 'Upcoming')`. */
  function GetUpcomingDonationCamps(camps: seq<DonationCamp>): (r: seq<DonationCamp>)
    ensures forall i :: 0 <= i < |r| ==> r[i].status == CampStatus.Upcoming && r[i] in camps
    ensures forall i :: 0 <= i < |camps| && camps[i].status == CampStatus.Upcoming ==> camps[i] in r
    ensures Subseq(r, camps)
    ensures multiset(r) <= multiset(camps)
    ensures forall i :: 0 <= i < |camps| && camps[i].status == CampStatus.Upcoming ==> multiset(r)[camps[i]] == multiset(camps)[camps[i]]
  {
    var p := (c: DonationCamp) => c.status == CampStatus.Upcoming;
    FilterMultiset(camps, p);
    Filter(camps, p)
  }

  /** `appointments.filter(app => app.donorId === donorId)`. */
  function GetDonorAppointments(apps: seq<Appointment>, donorId: int): (r: seq<Appointment>)
    ensures forall i :: 0 <= i < |r| ==> r[i].donorId == donorId && r[i] in apps
    ensures forall i :: 0 <= i < |apps| && apps[i].donorId == donorId ==> apps[i] in r
    ensures Subseq(r, apps)
    ensures multiset(r) <= multiset(apps)
    ensures forall i :: 0 <= i < |apps| && apps[i].donorId == donorId ==> multiset(r)[apps[i]] == multiset(apps)[apps[i]]
  {
    var p := (a: Appointment) => a.donorId == donorId;
    FilterMultiset(apps, p);
    Filter(apps, p)
  }

  /** `donationHistory.filter(donation => donation.donorId === donorId)`. */
  function GetDonorHistory(history: seq<DonationRecord>, donorId: int): (r: seq<DonationRecord>)
    ensures forall i :: 0 <= i < |r| ==> r[i].donorId == donorId && r[i] in history
    ensures forall i :: 0 <= i < |history| && history[i].donorId == donorId ==> history[i] in r
    ensures Subseq(r, history)
    ensures multiset(r) <= multiset(history)
    ensures forall i :: 0 <= i < |history| && history[i].donorId == donorId ==>
      multiset(r)[history[i]] == multiset(history)[history[i]]
  {
    var p := (d: DonationRecord) => d.donorId == donorId;
    FilterMultiset(history, p);
    Filter(history, p)
  }

  /** `{ id: length + 1, ...appointmentData, status: 'Scheduled' }`. */
  function NewAppointment(apps: seq<Appointment>, data: AppointmentData): (r: Appointment)
    ensures r.id == |apps| + 1 && r.status == AppointmentStatus.Scheduled
    ensures r.donorId == data.donorId && r.donorName == data.donorName
    ensures r.campId == data.campId && r.campName == data.campName
    ensures r.date == data.date && r.time == data.time
  {
    Appointment(|apps| + 1, data.donorId, data.donorName, data.campId, data.campName,
                data.date, data.time, AppointmentStatus.Scheduled)
  }

  /** An appointment added to a list numbered 1..n gets an id no appointment had. */
  lemma NewAppointmentFresh(apps: seq<Appointment>, data: AppointmentData)
    requires SequentialIds(apps, (a: Appointment) => a.id)
    ensures SequentialIds(apps + [NewAppointment(apps, data)], (a: Appointment) => a.id)
    ensures forall i :: 0 <= i < |apps| ==> apps[i].id != NewAppointment(apps, data).id
  {
    AppendSequential(apps, NewAppointment(apps, data), (a: Appointment) => a.id);
  }

  /**
   * `bookAppointment(appointmentData)`. The camps are neither read nor
   * changed: there is no capacity check and no slot is used up.
   */
  method BookAppointment(db: Store, appointmentData: AppointmentData) returns (r: Appointment)
    modifies db
    ensures db.appointments == old(db.appointments) + [NewAppointment(old(db.appointments), appointmentData)]
    ensures db.camps == old(db.camps) && db.inventory == old(db.inventory) && db.requests == old(db.requests)
    ensures db.history == old(db.history) && db.donors == old(db.donors) && db.receivers == old(db.receivers)
    ensures r == NewAppointment(old(db.appointments), appointmentData)
  {
    var newAppointment := NewAppointment(db.appointments, appointmentData);
    db.appointments := db.appointments + [newAppointment];
    return newAppointment;
  }

  /** `updateDonorProfile`: stores nothing and reports success with the data it was given. */
  function UpdateDonorProfile(donorId: int, profileData: Profile): (r: Response<Profile>)
    ensures r.success && r.data == Some(profileData)
    ensures r.message == "Profile updated successfully"
  {
    Response(true, "Profile updated successfully", Some(profileData))
  }
}
