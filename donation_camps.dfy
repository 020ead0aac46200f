/**
 * The donor's camp list: booking an appointment at a camp, and the
 * half-hour time slots the booking dialog offers.
 */
module DonationCamps {
  import opened Wrappers
  import opened Text
  import opened Records
  import opened MockData
  import opened DonorService

  // ---------------------------------------------------------------------------
  // Time slots

  /** JavaScript's `a % b` for `b > 0`: the remainder takes the sign of `a`. */
  function JsRem(a: int, b: int): (r: int)
    requires b > 0
    ensures a >= 0 ==> 0 <= r < b && r == a % b
    ensures a < 0 ==> -b < r <= 0 && r == -((-a) % b)
  {
    if a >= 0 then a % b else -((-a) % b)
  }

  /** `hour % 12 === 0 ? 12 : hour % 12`. */
  function FormattedHour(hour: int): (f: int)
    ensures 0 <= hour ==> 1 <= f <= 12
    ensures 1 <= hour <= 12 ==> f == hour
    ensures 13 <= hour <= 24 ==> f == hour - 12
    ensures hour % 12 == 0 ==> f == 12
  {
    if JsRem(hour, 12) == 0 then 12 else JsRem(hour, 12)
  }

  /** For every hour from 0 on, the shown hour is the one in 1..12 that agrees with it modulo 12. */
  lemma FormattedHourCycle(hour: int)
    requires 0 <= hour
    ensures 1 <= FormattedHour(hour) <= 12
    ensures FormattedHour(hour) % 12 == hour % 12
    ensures hour % 12 == 0 <==> FormattedHour(hour) == 12
  {
  }

  function Period(hour: int): string
  {
    if hour >= 12 then "PM" else "AM"
  }

  /** The label of the slot at `hour` and `minutes` ("00" or "30"). */
  function SlotLabel(hour: int, minutes: string): string
  {
    IntToString(FormattedHour(hour)) + ":" + minutes + " " + Period(hour)
  }

  /** The slots for the hours from `lo` up to but not including `hi`, two per hour. */
  function SlotsBetween(lo: int, hi: int): seq<string>
    decreases hi - lo
  {
    if hi <= lo then [] else SlotsBetween(lo, hi - 1) + [SlotLabel(hi - 1, "00"), SlotLabel(hi - 1, "30")]
  }

  /**
   * Two slots per hour, on the hour and at half past, from the first hour
   * on; none when the end is not after the start.
   */
  lemma {:induction false} SlotsBetweenShape(lo: int, hi: int)
    ensures |SlotsBetween(lo, hi)| == if hi <= lo then 0 else 2 * (hi - lo)
    ensures forall k :: 0 <= k < |SlotsBetween(lo, hi)| ==>
      SlotsBetween(lo, hi)[k] == SlotLabel(lo + k / 2, if k % 2 == 0 then "00" else "30")
    decreases hi - lo
  {
    if lo < hi {
      SlotsBetweenShape(lo, hi - 1);
      var prev := SlotsBetween(lo, hi - 1);
      var r := SlotsBetween(lo, hi);
      assert |prev| == 2 * (hi - 1 - lo);
      forall k | 0 <= k < |r|
        ensures r[k] == SlotLabel(lo + k / 2, if k % 2 == 0 then "00" else "30")
      {
        if k < |prev| {
          assert r[k] == prev[k];
        } else if k == |prev| {
          assert k / 2 == hi - 1 - lo && k % 2 == 0;
        } else {
          assert k == |prev| + 1;
          assert k / 2 == hi - 1 - lo && k % 2 == 1;
        }
      }
    }
  }

  /**
   * The hour a time such as "9:00 AM" stands for: `parseInt` of the text
   * before the first ':', plus 12 when the text holds "PM" and the hour is
   * not 12. `None` stands for NaN.
   */
  function ToHour(part: string): Option<int>
  {
    match ParseInt(FirstPiece(part, ":"))
    case None => None
    case Some(h) => Some(if Contains(part, "PM") && h != 12 then h + 12 else h)
  }

  /**
   * `generateTimeSlots()`. `None` stands for the TypeError thrown when the
   * camp's time has no " - " and so no end time. A start or end that is
   * NaN makes the loop condition false at once: no slots.
   */
  function TimeSlots(bookingCamp: Option<DonationCamp>): Option<seq<string>>
  {
    match bookingCamp
    case None => Some([])
    case Some(camp) =>
      match SecondPiece(camp.time, " - ")
      case None => None
      case Some(endTime) =>
        var s := ToHour(FirstPiece(camp.time, " - "));
        var e := ToHour(endTime);
        if s.None? || e.None? then Some([]) else Some(SlotsBetween(s.value, e.value))
  }

  /** One more hour adds its two labels at the end. */
  lemma SlotsBetweenStep(lo: int, h: int)
    requires lo <= h
    ensures SlotsBetween(lo, h + 1) == SlotsBetween(lo, h) + [SlotLabel(h, "00")] + [SlotLabel(h, "30")]
  {
  }

  /** The page's loop: two labels pushed for each hour from `start` up to `end`. */
  method PushSlots(start: int, end: int) returns (slots: seq<string>)
    ensures slots == SlotsBetween(start, end)
  {
    slots := [];
    var hour := start;
    while hour < end
      invariant start <= hour <= if start < end then end else start
      invariant slots == SlotsBetween(start, hour)
      decreases end - hour
    {
      SlotsBetweenStep(start, hour);
      slots := slots + [SlotLabel(hour, "00")];
      slots := slots + [SlotLabel(hour, "30")];
      hour := hour + 1;
    }
    if end <= start {
      assert SlotsBetween(start, end) == [];
    }
  }

  /** `generateTimeSlots()`, splitting the camp's time and running the loop. */
  method GenerateTimeSlots(bookingCamp: Option<DonationCamp>) returns (slots: Option<seq<string>>)
    ensures slots == TimeSlots(bookingCamp)
  {
    if bookingCamp.None? {
      return Some([]);
    }
    var time := bookingCamp.value.time;
    var endTime := SecondPiece(time, " - ");
    if endTime.None? {
      return None;
    }
    var startMinutes := ToHour(FirstPiece(time, " - "));
    var endMinutes := ToHour(endTime.value);
    if startMinutes.None? || endMinutes.None? {
      return Some([]);
    }
    var acc := PushSlots(startMinutes.value, endMinutes.value);
    return Some(acc);
  }

  lemma DigitsHaveNoLetters(ds: string)
    requires AllDigits(ds)
    ensures ':' !in ds && 'P' !in ds
  {
  }

  /** A text without 'P' does not contain "PM". */
  lemma NoPNoPM(s: string)
    requires 'P' !in s
    ensures !Contains(s, "PM")
  {
    forall i ensures !OccursAt(s, "PM", i) {
      if 0 <= i && i + 2 <= |s| {
        assert s[i..i + 2][0] == s[i];
      }
    }
  }

  /** The text before the label's ':' is the formatted hour, and reads as it. */
  lemma SlotHourText(hour: int, minutes: string)
    requires 0 <= hour
    ensures FirstPiece(SlotLabel(hour, minutes), ":") == IntToString(FormattedHour(hour))
    ensures ParseInt(FirstPiece(SlotLabel(hour, minutes), ":")) == Some(FormattedHour(hour))
  {
    var f := FormattedHour(hour);
    var digits := IntToString(f);
    var rest := minutes + " " + Period(hour);
    assert digits == NatToString(f);
    DigitsHaveNoLetters(digits);
    assert SlotLabel(hour, minutes) == digits + [':'] + rest;
    FirstPieceBefore(digits, ':', rest);
    assert digits + "" == digits;
    ParseIntToString(f, "");
  }

  /** A label holds "PM" exactly for the hours from noon on. */
  lemma SlotPeriod(hour: int, minutes: string)
    requires 0 <= hour
    requires minutes == "00" || minutes == "30"
    ensures Contains(SlotLabel(hour, minutes), "PM") <==> hour >= 12
  {
    var digits := IntToString(FormattedHour(hour));
    var slot := SlotLabel(hour, minutes);
    if hour >= 12 {
      assert slot[|slot| - 2..] == "PM";
      assert OccursAt(slot, "PM", |slot| - 2);
    } else {
      assert digits == NatToString(FormattedHour(hour));
      DigitsHaveNoLetters(digits);
      var rest := ":" + minutes + " AM";
      assert slot == digits + rest;
      assert forall i :: 0 <= i < |rest| ==> rest[i] != 'P';
      assert forall i :: 0 <= i < |slot| ==> slot[i] != 'P' by {
        forall i | 0 <= i < |slot| ensures slot[i] != 'P' {
          if i < |digits| { assert slot[i] == digits[i]; } else { assert slot[i] == rest[i - |digits|]; }
        }
      }
      NoPNoPM(slot);
    }
  }

  /**
   * A slot label read back as a start time gives the hour it was made for,
   * for every hour from 1 to 23. (Hour 0, "12:00 AM", reads back as 12.)
   */
  lemma SlotLabelReadsBack(hour: int, minutes: string)
    requires 1 <= hour < 24
    requires minutes == "00" || minutes == "30"
    ensures ToHour(SlotLabel(hour, minutes)) == Some(hour)
  {
    var f := FormattedHour(hour);
    SlotHourText(hour, minutes);
    SlotPeriod(hour, minutes);
    ToHourFrom(SlotLabel(hour, minutes), f, hour >= 12);
  }

  /** `ToHour` of a time whose number reads as `h` and which holds "PM" exactly when `pm`. */
  lemma ToHourFrom(part: string, h: int, pm: bool)
    requires ParseInt(FirstPiece(part, ":")) == Some(h)
    requires Contains(part, "PM") == pm
    ensures ToHour(part) == Some(if pm && h != 12 then h + 12 else h)
  {
  }

  /** Splitting "a - b" at " - " gives "a" and the part of "b" before any further " - ". */
  lemma SplitTimeRange(a: string, b: string)
    requires '-' !in a
    ensures FirstPiece(a + " - " + b, " - ") == a
    ensures SecondPiece(a + " - " + b, " - ") == Some(FirstPiece(b, " - "))
  {
    var s := a + " - " + b;
    assert OccursAt(s, " - ", |a|);
    assert forall j :: 0 <= j < |a| ==> !OccursAt(s, " - ", j) by {
      forall j | 0 <= j < |a| ensures !OccursAt(s, " - ", j) {
        if j + 3 <= |s| {
          assert s[j..j + 3][1] == s[j + 1];
          if j + 1 < |a| { assert s[j + 1] == a[j + 1]; } else { assert s[j + 1] == ' '; }
        }
      }
    }
    assert IndexOf(s, " - ") == Some(|a|);
    assert s[..|a|] == a;
    assert s[|a| + 3..] == b;
  }

  lemma NineAmLabel()
    ensures SlotLabel(9, "00") == "9:00 AM"
  {
    assert IntToString(9) == "9";
  }

  lemma FivePmLabel()
    ensures SlotLabel(17, "00") == "5:00 PM"
  {
    assert FormattedHour(17) == 5;
    assert IntToString(5) == "5";
  }

  /** The seed camps' start and end times read as hours 9 and 17. */
  lemma NineToFiveHours()
    ensures ToHour("9:00 AM") == Some(9) && ToHour("5:00 PM") == Some(17)
  {
    NineAmLabel();
    SlotLabelReadsBack(9, "00");
    FivePmLabel();
    SlotLabelReadsBack(17, "00");
  }

  /** "9:00 AM - 5:00 PM" splits into "9:00 AM" and "5:00 PM". */
  lemma SeedTimeSplits()
    ensures FirstPiece("9:00 AM - 5:00 PM", " - ") == "9:00 AM"
    ensures SecondPiece("9:00 AM - 5:00 PM", " - ") == Some("5:00 PM")
  {
    assert "9:00 AM - 5:00 PM" == "9:00 AM" + " - " + "5:00 PM";
    SplitTimeRange("9:00 AM", "5:00 PM");
    NoDashNoSplit("5:00 PM");
  }

  /** A camp open "9:00 AM - 5:00 PM", as camp 1 is, offers the slots of hours 9 to 16. */
  lemma NineToFiveSlots(camp: DonationCamp)
    requires camp.time == "9:00 AM - 5:00 PM"
    ensures TimeSlots(Some(camp)) == Some(SlotsBetween(9, 17))
  {
    SeedTimeSplits();
    NineToFiveHours();
  }

  /** Eight hours give sixteen slots, from "lo:00" to "(lo+7):30"; for 9 to 17, 9:00 AM to 4:30 PM. */
  lemma EightHourSlots(lo: int, hi: int)
    requires hi == lo + 8
    ensures |SlotsBetween(lo, hi)| == 16
    ensures SlotsBetween(lo, hi)[0] == SlotLabel(lo, "00") && SlotsBetween(lo, hi)[15] == SlotLabel(lo + 7, "30")
  {
    SlotsBetweenShape(lo, hi);
    assert 15 / 2 == 7 && 15 % 2 == 1;
  }

  lemma SeedCampOneHours()
    ensures SeedCamps[0].time == "9:00 AM - 5:00 PM"
  {
  }

  /** A text without '-' is its own first piece at " - ". */
  lemma NoDashNoSplit(s: string)
    requires '-' !in s
    ensures FirstPiece(s, " - ") == s
  {
    forall i ensures !OccursAt(s, " - ", i) {
      if 0 <= i && i + 3 <= |s| {
        assert s[i..i + 3][1] == s[i + 1];
      }
    }
  }

  /**
   * Only the text before the first ':' is read as the hour; the minutes are
   * dropped, and 12 is added when "PM" appears anywhere and the hour is not 12.
   */
  lemma ToHourOf(h: nat, rest: string)
    ensures var part := IntToString(h) + ":" + rest;
      ToHour(part) == Some(if Contains(part, "PM") && h != 12 then h + 12 else h)
  {
    var digits := IntToString(h);
    assert digits == NatToString(h);
    DigitsHaveNoLetters(digits);
    assert digits + ":" + rest == digits + [':'] + rest;
    FirstPieceBefore(digits, ':', rest);
    ParseIntToString(h, "");
    assert digits + "" == digits;
    var part := digits + ":" + rest;
    ToHourFrom(part, h, Contains(part, "PM"));
  }

  /** "9:30 AM" reads as hour 9: the half hour is dropped. */
  lemma MinutesIgnored()
    ensures ToHour("9:30 AM") == Some(9)
  {
    assert IntToString(9) == "9";
    assert "9:30 AM" == IntToString(9) + ":" + "30 AM";
    NoPNoPM("9:30 AM");
    ToHourOf(9, "30 AM");
  }

  /** "12:00 AM" reads as hour 12, the same as "12:00 PM", not as hour 0. */
  lemma MidnightReadsAsNoon()
    ensures ToHour("12:00 AM") == Some(12) && ToHour("12:00 PM") == Some(12)
  {
    assert IntToString(12) == "12" by {
      assert NatToString(12) == NatToString(1) + [DigitChar(2)];
    }
    assert "12:00 AM" == IntToString(12) + ":" + "00 AM";
    assert "12:00 PM" == IntToString(12) + ":" + "00 PM";
    ToHourOf(12, "00 AM");
    ToHourOf(12, "00 PM");
  }

  /** "9:30 AM - 5:00 PM" splits into "9:30 AM" and "5:00 PM". */
  lemma HalfPastTimeSplits()
    ensures FirstPiece("9:30 AM - 5:00 PM", " - ") == "9:30 AM"
    ensures SecondPiece("9:30 AM - 5:00 PM", " - ") == Some("5:00 PM")
  {
    assert "9:30 AM - 5:00 PM" == "9:30 AM" + " - " + "5:00 PM";
    SplitTimeRange("9:30 AM", "5:00 PM");
    NoDashNoSplit("5:00 PM");
  }

  /** A camp open "9:30 AM - 5:00 PM" is offered the same slots as one open from 9:00, starting at "9:00 AM". */
  lemma HalfPastStartSlots(camp: DonationCamp)
    requires camp.time == "9:30 AM - 5:00 PM"
    ensures TimeSlots(Some(camp)) == Some(SlotsBetween(9, 17))
    ensures SlotsBetween(9, 17)[0] == "9:00 AM"
  {
    HalfPastTimeSplits();
    MinutesIgnored();
    NineToFiveHours();
    EightHourSlots(9, 17);
    NineAmLabel();
  }

  // ---------------------------------------------------------------------------
  // Booking

  datatype BookingPage = BookingPage(
    camps: seq<DonationCamp>, bookingCamp: Option<DonationCamp>, selectedTime: string, dialogOpen: bool)

  /** Only upcoming camps have an enabled "Book Appointment" button. */
  predicate BookingOffered(camp: DonationCamp)
  {
    camp.status == CampStatus.Upcoming
  }

  /** The page lists every camp; of the seed camps the first three can be booked. */
  lemma SeedBookable()
    ensures forall i :: 0 <= i < |SeedCamps| ==> (BookingOffered(SeedCamps[i]) <==> i < 3)
  {
    SeedCampStatuses();
  }

  /** `handleBooking`: remember the camp, clear the chosen time, open the dialog. */
  function HandleBooking(page: BookingPage, camp: DonationCamp): (next: BookingPage)
    ensures next == BookingPage(page.camps, Some(camp), "", true)
  {
    page.(bookingCamp := Some(camp), selectedTime := "", dialogOpen := true)
  }

  /**
   * Opening the booking dialog forgets any time chosen before and the camp
   * of any earlier dialog, so a confirmation books the camp last clicked and
   * only once a time is chosen again; the camp list is untouched.
   */
  lemma BookingDialogFresh(page: BookingPage, earlier: DonationCamp, camp: DonationCamp, time: string)
    ensures HandleBooking(page.(selectedTime := time), camp) == HandleBooking(page, camp)
    ensures HandleBooking(HandleBooking(page, earlier), camp) == HandleBooking(page, camp)
    ensures HandleBooking(page, camp).selectedTime == "" && HandleBooking(page, camp).camps == page.camps
    ensures HandleBooking(page, camp).bookingCamp == Some(camp) && HandleBooking(page, camp).dialogOpen
  {
  }

  /** What `confirmBooking` hands to `bookAppointment`. */
  function BookingData(user: Identity, camp: DonationCamp, time: string): (d: AppointmentData)
    ensures d.donorId == user.id && d.donorName == user.profile.name
    ensures d.campId == camp.id && d.campName == camp.name && d.date == camp.date && d.time == time
  {
    AppointmentData(user.id, user.profile.name, camp.id, camp.name, camp.date, time)
  }

  /**
   * `confirmBooking`. Without a chosen time it refuses. Without a signed-in
   * user or a camp it fails the way the page's catch reports it. Otherwise
   * it books the appointment and closes the dialog; the camp and the
   * chosen time stay remembered.
   */
  method ConfirmBooking(db: Store, currentUser: Option<Identity>, page: BookingPage)
    returns (next: BookingPage, toast: string)
    modifies db
    ensures page.selectedTime == "" ==>
      next == page && toast == "Please select an appointment time" && db.appointments == old(db.appointments)
    ensures page.selectedTime != "" && (currentUser.None? || page.bookingCamp.None?) ==>
      next == page && toast == "Failed to book appointment" && db.appointments == old(db.appointments)
    ensures page.selectedTime != "" && currentUser.Some? && page.bookingCamp.Some? ==>
      var data := BookingData(currentUser.value, page.bookingCamp.value, page.selectedTime);
      db.appointments == old(db.appointments) + [NewAppointment(old(db.appointments), data)] &&
      next == page.(dialogOpen := false) && toast == "Appointment booked successfully"
    ensures db.camps == old(db.camps) && db.inventory == old(db.inventory) && db.requests == old(db.requests)
    ensures db.history == old(db.history) && db.donors == old(db.donors) && db.receivers == old(db.receivers)
  {
    if page.selectedTime == "" {
      return page, "Please select an appointment time";
    }
    if currentUser.None? || page.bookingCamp.None? {
      return page, "Failed to book appointment";
    }
    var data := BookingData(currentUser.value, page.bookingCamp.value, page.selectedTime);
    var _ := BookAppointment(db, data);
    return page.(dialogOpen := false), "Appointment booked successfully";
  }
}
