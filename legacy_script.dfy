/**
 * The single-page booking script at the repository root (script.js): a fixed
 * list of hourly slots from 7am to 10pm, a sign-in that only remembers an
 * e-mail address, and bookings appended to one list for everyone.
 */
module LegacyScript {
  import opened Wrappers
  import opened Text
  import opened TimeArithmetic
  import opened EmailAddress

  // ---------------------------------------------------------------------------
  // Time slots

  /** One `<option>` of the time select: the shown text and the "HH:00" value. */
  datatype Slot = Slot(display: string, value: string)

  /** The label the slot loop gives an hour: "PM" only above 12, so noon is shown as "12:00 AM". */
  function LegacySlotLabel(hour: nat): string {
    if hour > 12 then NatText(hour - 12) + ":00 PM" else NatText(hour) + ":00 AM"
  }

  /**
   * Read back through the 12-hour reading, every slot label names its own hour
   * except noon's, which names midnight.
   */
  lemma LegacySlotLabelReadsBack(hour: nat)
    requires 1 <= hour < 24
    ensures ReadClock12Label(LegacySlotLabel(hour)) == Some(if hour == 12 then 0 else hour)
  {
    if hour == 12 {
      assert NatText(12) == "12" by {
        assert NatText(1) == "1";
      }
      ReadNatText(12, ":00 AM");
    } else if hour > 12 {
      ReadNatText(hour - 12, ":00 PM");
    } else {
      ReadNatText(hour, ":00 AM");
    }
  }

  /** Noon is labelled as a morning hour, unlike the labels of the other pages. */
  lemma NoonLabelledAM()
    ensures LegacySlotLabel(12) == "12:00 AM" && IsAmLabel(LegacySlotLabel(12))
    ensures Clock12Label(12) == "12:00 PM" && !IsAmLabel(Clock12Label(12))
  {
    assert NatText(12) == "12" by {
      assert NatText(1) == "1";
    }
    Clock12LabelMeridiem(12);
  }

  /** Away from noon the slot loop and the 12-hour label of the other pages agree. */
  lemma LegacySlotLabelAgreesOffNoon(hour: nat)
    requires 1 <= hour && hour != 12
    ensures LegacySlotLabel(hour) == Clock12Label(hour)
  {
  }

  /**
   * The slot list built at load time: hours 7 to 22, each with its label and
   * its zero-padded value. Every value reads back as its hour on the hour.
   */
  method BuildTimeSlots() returns (timeSlots: seq<Slot>)
    ensures |timeSlots| == 16
    ensures forall k :: 0 <= k < 16 ==> timeSlots[k] == Slot(LegacySlotLabel(7 + k), SlotValue(7 + k))
    ensures forall k :: 0 <= k < 16 ==> ParseTime24(timeSlots[k].value) == Some(Clock(7 + k, 0))
    ensures forall k :: 0 <= k < 16 ==>
      ReadClock12Label(timeSlots[k].display) == Some(if k == 5 then 0 else 7 + k)
  {
    timeSlots := [];
    var hour := 7;
    while hour <= 22
      invariant 7 <= hour <= 23
      invariant |timeSlots| == hour - 7
      invariant forall k :: 0 <= k < hour - 7 ==> timeSlots[k] == Slot(LegacySlotLabel(7 + k), SlotValue(7 + k))
    {
      var time12 := if hour > 12 then NatText(hour - 12) + ":00 PM" else NatText(hour) + ":00 AM";
      var time24 := PadStart(NatText(hour), 2, '0') + ":00";
      timeSlots := timeSlots + [Slot(time12, time24)];
      hour := hour + 1;
    }
    forall k | 0 <= k < 16
      ensures ParseTime24(timeSlots[k].value) == Some(Clock(7 + k, 0))
      ensures ReadClock12Label(timeSlots[k].display) == Some(if k == 5 then 0 else 7 + k)
    {
      SlotValueParses(7 + k);
      LegacySlotLabelReadsBack(7 + k);
    }
  }

  // ---------------------------------------------------------------------------
  // Sign-in and booking

  /** A booking as this script stores it: who (by e-mail), when, what, and the creation instant as text. */
  datatype LegacyBooking = LegacyBooking(email: string, date: string, time: string, subject: string, timestamp: string)

  /** The sign-in accepts exactly the trimmed inputs that match the address pattern. */
  lemma LoginGate(input: string)
    ensures (Trim(input) != "" && IsValidEmail(Trim(input))) <==> EmailPattern(Trim(input))
  {
    IsValidEmailMatchesPattern(Trim(input));
  }

  /**
   * The page's state: the e-mail in use, the e-mail remembered in storage
   * ("" when none), whether the booking form is shown rather than the sign-in
   * modal, and the stored bookings.
   */
  class LegacyPage {
    var userEmail: string
    var savedEmail: string
    var mainContentShown: bool
    var bookings: seq<LegacyBooking>

    /** The load handler: a remembered e-mail signs in at once; stored bookings are read back. */
    constructor(storedEmail: string, storedBookings: seq<LegacyBooking>)
      ensures savedEmail == storedEmail && bookings == storedBookings
      ensures userEmail == storedEmail && (mainContentShown <==> storedEmail != "")
    {
      userEmail := "";
      savedEmail := storedEmail;
      mainContentShown := false;
      bookings := [];
      if storedEmail != "" {
        userEmail := storedEmail;
        mainContentShown := true;
      }
      bookings := storedBookings;
    }

    /**
     * `handleLogin`: the trimmed input becomes the e-mail in use whatever it
     * is; only a valid address is remembered and opens the booking form.
     */
    method HandleLogin(input: string) returns (accepted: bool)
      modifies this`userEmail, this`savedEmail, this`mainContentShown
      ensures userEmail == Trim(input)
      ensures accepted <==> EmailPattern(Trim(input))
      ensures accepted ==> savedEmail == Trim(input) && mainContentShown
      ensures !accepted ==> savedEmail == old(savedEmail) && mainContentShown == old(mainContentShown)
    {
      userEmail := Trim(input);
      LoginGate(input);
      if userEmail != "" && IsValidEmail(userEmail) {
        savedEmail := userEmail;
        mainContentShown := true;
        accepted := true;
      } else {
        accepted := false;
      }
    }

    /**
     * `handleBooking`: with every field filled, one booking under the e-mail
     * in use is appended (and saved); otherwise nothing changes.
     */
    method HandleBooking(date: string, time: string, subject: string, now: string) returns (added: bool)
      modifies this`bookings
      ensures added <==> date != "" && time != "" && subject != ""
      ensures added ==> bookings == old(bookings) + [LegacyBooking(userEmail, date, time, subject, now)]
      ensures !added ==> bookings == old(bookings)
    {
      if date == "" || time == "" || subject == "" {
        return false;
      }
      var booking := LegacyBooking(userEmail, date, time, subject, now);
      bookings := bookings + [booking];
      added := true;
    }
  }
}
