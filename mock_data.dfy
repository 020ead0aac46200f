/**
 * The seed state of the in-memory blood bank, and the object that holds the
 * shared arrays the services read and change in place.
 */
module MockData {
  import opened Wrappers
  import opened Records

  const SeedInventory: seq<InventoryItem> := [
    InventoryItem("A+", 25, StockStatus.Available),
    InventoryItem("A-", 15, StockStatus.Low),
    InventoryItem("B+", 30, StockStatus.Available),
    InventoryItem("B-", 10, StockStatus.Critical),
    InventoryItem("AB+", 12, StockStatus.Available),
    InventoryItem("AB-", 5, StockStatus.Critical),
    InventoryItem("O+", 45, StockStatus.Available),
    InventoryItem("O-", 20, StockStatus.Low)
  ]

  const SeedDonors: seq<Donor> := [
    Donor(1, "John Donor", "donor@example.com", "O+", 28, "Male", "123-456-7890",
          "123 Main St, Anytown", "2023-11-15", 5),
    Donor(2, "Maria Garcia", "maria@example.com", "A+", 35, "Female", "234-567-8901",
          "456 Oak Ave, Somewhere", "2023-12-20", 8),
    Donor(3, "Robert Smith", "robert@example.com", "B-", 42, "Male", "345-678-9012",
          "789 Pine Rd, Elsewhere", "2024-01-05", 12),
    Donor(4, "Emily Johnson", "emily@example.com", "AB+", 29, "Female", "456-789-0123",
          "101 Elm St, Nowhere", "2024-02-18", 3)
  ]

  const SeedReceivers: seq<Receiver> := [
    Receiver(1, "Sarah Receiver", "receiver@example.com", Some("AB-"), 32, "Female", "567-890-1234",
             "202 Maple Dr, Anytown", "Surgery", Some("General Hospital")),
    Receiver(2, "James Wilson", "james@example.com", Some("O-"), 45, "Male", "678-901-2345",
             "303 Cedar Ln, Somewhere", "Anemia", Some("City Medical Center")),
    Receiver(3, "Linda Martinez", "linda@example.com", Some("A-"), 38, "Female", "789-012-3456",
             "404 Birch Blvd, Elsewhere", "Accident", Some("Emergency Care Hospital"))
  ]

  const SeedRequests: seq<BloodRequest> := [
    BloodRequest(1, 1, "Sarah Receiver", "AB-", 2, "2024-03-01", RequestStatus.Approved,
                 Urgency.High, "General Hospital", "Surgery scheduled for March 5th"),
    BloodRequest(2, 2, "James Wilson", "O-", 3, "2024-03-10", RequestStatus.Pending,
                 Urgency.Critical, "City Medical Center", "Severe anemia requiring immediate transfusion"),
    BloodRequest(3, 3, "Linda Martinez", "A-", 1, "2024-03-15", RequestStatus.Rejected,
                 Urgency.Medium, "Emergency Care Hospital", "Car accident victim"),
    BloodRequest(4, 1, "Sarah Receiver", "AB-", 1, "2024-03-20", RequestStatus.Approved,
                 Urgency.Low, "General Hospital", "Follow-up treatment")
  ]

  const SeedCamps: seq<DonationCamp> := [
    DonationCamp(1, "City Community Center Drive", "Community Center, 123 Main St", "2024-04-15",
                 "9:00 AM - 5:00 PM", "Red Cross", "555-123-4567", CampStatus.Upcoming, 50,
                 "Annual blood donation drive at the city community center. Walk-ins welcome, but appointments preferred."),
    DonationCamp(2, "University Campus Drive", "Student Union Building, State University", "2024-04-22",
                 "10:00 AM - 6:00 PM", "State University Medical School", "555-234-5678", CampStatus.Upcoming, 100,
                 "Blood donation drive targeting university students and staff. Free refreshments provided to all donors."),
    DonationCamp(3, "Corporate Office Drive", "Tech Plaza, 456 Business Ave", "2024-05-05",
                 "8:00 AM - 2:00 PM", "Blood Connect Foundation", "555-345-6789", CampStatus.Upcoming, 40,
                 "Blood donation drive for corporate employees. Special recognition for first-time donors."),
    DonationCamp(4, "Downtown Health Fair", "Central Park, Downtown", "2024-03-10",
                 "9:00 AM - 4:00 PM", "City Health Department", "555-456-7890", CampStatus.Completed, 75,
                 "Part of the annual city health fair, featuring blood donation, health screenings, and family activities.")
  ]

  const SeedAppointments: seq<Appointment> := [
    Appointment(1, 1, "John Donor", 1, "City Community Center Drive", "2024-04-15", "10:30 AM",
                AppointmentStatus.Scheduled),
    Appointment(2, 2, "Maria Garcia", 2, "University Campus Drive", "2024-04-22", "1:15 PM",
                AppointmentStatus.Scheduled),
    Appointment(3, 3, "Robert Smith", 1, "City Community Center Drive", "2024-04-15", "3:45 PM",
                AppointmentStatus.Scheduled),
    Appointment(4, 4, "Emily Johnson", 4, "Downtown Health Fair", "2024-03-10", "11:00 AM",
                AppointmentStatus.Completed)
  ]

  const SeedHistory: seq<DonationRecord> := [
    DonationRecord(1, 1, "John Donor", "O+", "450ml", "2023-11-15", "Main Blood Bank", "Successful"),
    DonationRecord(2, 2, "Maria Garcia", "A+", "450ml", "2023-12-20", "University Medical Center", "Successful"),
    DonationRecord(3, 3, "Robert Smith", "B-", "450ml", "2024-01-05", "Community Blood Drive", "Successful"),
    DonationRecord(4, 1, "John Donor", "O+", "450ml", "2023-08-22", "Mobile Blood Drive Unit", "Successful"),
    DonationRecord(5, 4, "Emily Johnson", "AB+", "450ml", "2024-02-18", "Downtown Health Fair", "Successful")
  ]

  /** The eight ABO/Rh blood types, in inventory order. */
  const BloodTypes: seq<string> := ["A+", "A-", "B+", "B-", "AB+", "AB-", "O+", "O-"]

  /** One inventory entry per blood type, in the order of `BloodTypes`, no type twice. */
  lemma SeedInventoryTypes()
    ensures |SeedInventory| == |BloodTypes| == 8
    ensures forall i :: 0 <= i < 8 ==> SeedInventory[i].bloodType == BloodTypes[i]
    ensures forall i, j :: 0 <= i < j < 8 ==> SeedInventory[i].bloodType != SeedInventory[j].bloodType
  {
  }

  /** Every seed collection is numbered 1..n in order. */
  lemma SeedIdsSequential()
    ensures SequentialIds(SeedDonors, (d: Donor) => d.id)
    ensures SequentialIds(SeedReceivers, (r: Receiver) => r.id)
    ensures SequentialIds(SeedRequests, (r: BloodRequest) => r.id)
    ensures SequentialIds(SeedCamps, (c: DonationCamp) => c.id)
    ensures SequentialIds(SeedAppointments, (a: Appointment) => a.id)
    ensures SequentialIds(SeedHistory, (h: DonationRecord) => h.id)
  {
    SeedPeopleIds();
    SeedRequestAndCampIds();
    SeedBookingIds();
  }

  lemma SeedPeopleIds()
    ensures SequentialIds(SeedDonors, (d: Donor) => d.id)
    ensures SequentialIds(SeedReceivers, (r: Receiver) => r.id)
  {
  }

  lemma SeedRequestAndCampIds()
    ensures SequentialIds(SeedRequests, (r: BloodRequest) => r.id)
    ensures SequentialIds(SeedCamps, (c: DonationCamp) => c.id)
  {
  }

  lemma SeedBookingIds()
    ensures SequentialIds(SeedAppointments, (a: Appointment) => a.id)
    ensures SequentialIds(SeedHistory, (h: DonationRecord) => h.id)
  {
  }

  /** Camps 1 to 3 are upcoming, camp 4 is over. */
  lemma SeedCampStatuses()
    ensures forall i :: 0 <= i < 3 ==> SeedCamps[i].status == CampStatus.Upcoming
    ensures SeedCamps[3].status == CampStatus.Completed && |SeedCamps| == 4
  {
  }

  /**
   * The shared mock arrays. The services mutate them in place, and every
   * page that fetches them sees the same arrays.
   */
  class Store {
    var inventory: seq<InventoryItem>
    var donors: seq<Donor>
    var receivers: seq<Receiver>
    var requests: seq<BloodRequest>
    var camps: seq<DonationCamp>
    var appointments: seq<Appointment>
    var history: seq<DonationRecord>

    /** The store as the module is loaded: every array holds its seed. */
    constructor ()
      ensures inventory == SeedInventory && donors == SeedDonors && receivers == SeedReceivers
      ensures requests == SeedRequests && camps == SeedCamps
      ensures appointments == SeedAppointments && history == SeedHistory
    {
      inventory := SeedInventory;
      donors := SeedDonors;
      receivers := SeedReceivers;
      requests := SeedRequests;
      camps := SeedCamps;
      appointments := SeedAppointments;
      history := SeedHistory;
    }
  }
}
