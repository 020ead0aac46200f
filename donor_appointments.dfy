/** The donor's appointments: their appointments, earliest first. */
module DonorAppointments {
  import opened Text
  import opened Seqs
  import opened Records
  import opened DonorService
  import opened Orders

  /**
   * The cards: exactly the signed-in donor's appointments, each once,
   * earliest first, whatever their status; empty exactly when the donor has
   * none.
   */
  function Cards(apps: seq<Appointment>, donorId: int): (r: seq<Appointment>)
    ensures multiset(r) == multiset(GetDonorAppointments(apps, donorId))
    ensures forall i :: 0 <= i < |r| ==> r[i].donorId == donorId
    ensures forall i, j :: 0 <= i < j < |r| ==> LexLe(r[i].date, r[j].date)
    ensures r == [] <==> forall i :: 0 <= i < |apps| ==> apps[i].donorId != donorId
  {
    var mine := GetDonorAppointments(apps, donorId);
    SortEarliest(mine, AppointmentDate);
    var r := SortBy(mine, Earliest(AppointmentDate));
    SameElements(r, mine);
    assert mine != [] ==> mine[0] in apps;
    r
  }

  /** A booking shows up among the donor's cards. */
  lemma BookingShown(apps: seq<Appointment>, data: AppointmentData)
    ensures NewAppointment(apps, data) in multiset(Cards(apps + [NewAppointment(apps, data)], data.donorId))
  {
    var n := NewAppointment(apps, data);
    assert (apps + [n])[|apps|] == n;
    assert n in GetDonorAppointments(apps + [n], data.donorId);
  }
}
