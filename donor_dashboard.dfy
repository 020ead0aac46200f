/** The donor's dashboard: two counts, the next appointment, recent donations and upcoming camps. */
module DonorDashboard {
  import opened Wrappers
  import opened Text
  import opened Seqs
  import opened Records
  import opened MockData
  import opened DonorService
  import opened Orders

  predicate IsScheduled(a: Appointment) { a.status == AppointmentStatus.Scheduled }

  /** What the dashboard loads for the signed-in donor: their appointments and donations, and at most three upcoming camps. */
  datatype DonorView = DonorView(appointments: seq<Appointment>, history: seq<DonationRecord>, upcomingCamps: seq<DonationCamp>)

  function LoadDonorView(apps: seq<Appointment>, history: seq<DonationRecord>, camps: seq<DonationCamp>, donorId: int)
    : (v: DonorView)
    ensures v.appointments == GetDonorAppointments(apps, donorId)
    ensures v.history == GetDonorHistory(history, donorId)
    ensures var upcoming := GetUpcomingDonationCamps(camps);
      |v.upcomingCamps| == (if |upcoming| < 3 then |upcoming| else 3) && v.upcomingCamps <= upcoming
    ensures forall i :: 0 <= i < |v.upcomingCamps| ==> v.upcomingCamps[i].status == CampStatus.Upcoming
  {
    DonorView(GetDonorAppointments(apps, donorId), GetDonorHistory(history, donorId),
              Take(GetUpcomingDonationCamps(camps), 3))
  }

  /** "Total Donations" and "Upcoming Appointments". */
  function Counts(v: DonorView): (c: (nat, nat))
    ensures c.0 == |v.history|
    ensures c.1 <= |v.appointments|
    ensures c.1 > 0 <==> exists i :: 0 <= i < |v.appointments| && v.appointments[i].status == AppointmentStatus.Scheduled
  {
    CountPositive(v.appointments, IsScheduled);
    (|v.history|, Count(v.appointments, IsScheduled))
  }

  /**
   * "Next Appointment": the earliest scheduled appointment, if any. It is
   * scheduled, and no scheduled appointment has an earlier date.
   */
  function NextAppointment(apps: seq<Appointment>): (r: Option<Appointment>)
    ensures r.None? <==> forall i :: 0 <= i < |apps| ==> apps[i].status != AppointmentStatus.Scheduled
    ensures r.Some? ==> r.value in apps && r.value.status == AppointmentStatus.Scheduled
    ensures r.Some? ==> forall i :: 0 <= i < |apps| && apps[i].status == AppointmentStatus.Scheduled ==>
      LexLe(r.value.date, apps[i].date)
  {
    var scheduled := Filter(apps, IsScheduled);
    var sorted := SortBy(scheduled, Earliest(AppointmentDate));
    SortEarliest(scheduled, AppointmentDate);
    CountPositive(apps, IsScheduled);
    var shown := Take(sorted, 1);
    if shown == [] then
      None
    else
      assert shown[0] == sorted[0] && sorted[0] in multiset(scheduled);
      assert forall i :: 0 <= i < |apps| && IsScheduled(apps[i]) ==> LexLe(sorted[0].date, apps[i].date) by {
        forall i | 0 <= i < |apps| && IsScheduled(apps[i]) ensures LexLe(sorted[0].date, apps[i].date) {
          assert apps[i] in scheduled;
          assert apps[i] in multiset(sorted);
          var k :| 0 <= k < |sorted| && sorted[k] == apps[i];
          if k == 0 { LexReflexive(sorted[0].date); }
        }
      }
      Some(shown[0])
  }

  /** "Recent Donations": the three newest donations. */
  function RecentDonations(history: seq<DonationRecord>): (r: seq<DonationRecord>)
    ensures |r| == if |history| < 3 then |history| else 3
    ensures forall i :: 0 <= i < |r| ==> r[i] in history
    ensures multiset(r) <= multiset(history)
    ensures forall i, j :: 0 <= i < j < |r| ==> LexLe(r[j].date, r[i].date)
    ensures var d := SortBy(history, Newest(DonationDate));
      forall i, j :: 0 <= i < |r| <= j < |d| ==> LexLe(d[j].date, r[i].date)
  {
    NewestTake(history, DonationDate, 3);
    Take(SortBy(history, Newest(DonationDate)), 3)
  }
}
