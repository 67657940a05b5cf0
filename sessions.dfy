/**
 * The session booking page (js/sessions.js): the four-step booking form, the
 * time pickers, conflict detection against a personal timetable, and the
 * routing of a submitted session either to the owner's timetable (study mode
 * "alone") or to the shared bookings list.
 */
module Sessions {
  import opened Wrappers
  import opened Seqs
  import opened TimeArithmetic
  import opened Records

  // ---------------------------------------------------------------------------
  // Conflict detection

  /** The overlap test of `checkTimetableConflicts`, its three cases as written. */
  predicate ThreeCaseOverlap(newStart: int, newEnd: int, existingStart: int, existingEnd: int) {
    || (newStart >= existingStart && newStart < existingEnd)
    || (newEnd > existingStart && newEnd <= existingEnd)
    || (newStart <= existingStart && newEnd >= existingEnd)
  }

  /** The half-open intervals [s1, e1) and [s2, e2) share at least one minute. */
  predicate IntervalsOverlap(s1: int, e1: int, s2: int, e2: int) {
    s1 < e2 && s2 < e1
  }

  /** For two proper intervals the three cases say exactly "the intervals share a minute". */
  lemma ThreeCaseIsIntervalOverlap(newStart: int, newEnd: int, existingStart: int, existingEnd: int)
    requires newStart < newEnd && existingStart < existingEnd
    ensures ThreeCaseOverlap(newStart, newEnd, existingStart, existingEnd)
        <==> IntervalsOverlap(newStart, newEnd, existingStart, existingEnd)
  {
  }

  /** A session runs forward in time: its start minute is before its end minute. */
  predicate WellOrdered(s: Session) {
    ParseTime(s.startTime) < ParseTime(s.endTime)
  }

  /** `existing` is reported as a conflict of `candidate` by `checkTimetableConflicts`. */
  predicate Conflicts(existing: Session, candidate: Session) {
    && existing.date == candidate.date
    && existing.id != candidate.id
    && ThreeCaseOverlap(ParseTime(candidate.startTime), ParseTime(candidate.endTime),
                        ParseTime(existing.startTime), ParseTime(existing.endTime))
  }

  /** The conflicts of `candidate` among `existing`, in their stored order. */
  function ConflictsOf(existing: seq<Session>, candidate: Session): seq<Session> {
    Filter(existing, (x: Session) => Conflicts(x, candidate))
  }

  /** `checkTimetableConflicts`: one pass over the existing sessions, collecting the conflicting ones. */
  method CheckTimetableConflicts(existingSessions: seq<Session>, newSession: Session) returns (conflicts: seq<Session>)
    ensures conflicts == ConflictsOf(existingSessions, newSession)
  {
    conflicts := [];
    var newStart := ParseTime(newSession.startTime);
    var newEnd := ParseTime(newSession.endTime);
    var i := 0;
    while i < |existingSessions|
      invariant 0 <= i <= |existingSessions|
      invariant conflicts == ConflictsOf(existingSessions[..i], newSession)
    {
      var session := existingSessions[i];
      assert existingSessions[..i + 1][..i] == existingSessions[..i];
      if session.date == newSession.date && session.id != newSession.id {
        var existingStart := ParseTime(session.startTime);
        var existingEnd := ParseTime(session.endTime);
        if || (newStart >= existingStart && newStart < existingEnd)
           || (newEnd > existingStart && newEnd <= existingEnd)
           || (newStart <= existingStart && newEnd >= existingEnd)
        {
          conflicts := conflicts + [session];
        }
      }
      i := i + 1;
    }
    assert existingSessions[..i] == existingSessions;
  }

  /**
   * The reported conflicts are exactly the stored sessions on the same date,
   * with another id and an overlapping time, and they keep their stored order.
   */
  lemma ConflictsOfMeaning(existing: seq<Session>, candidate: Session)
    ensures forall i :: 0 <= i < |ConflictsOf(existing, candidate)| ==>
      ConflictsOf(existing, candidate)[i] in existing && Conflicts(ConflictsOf(existing, candidate)[i], candidate)
    ensures forall i :: 0 <= i < |existing| && Conflicts(existing[i], candidate) ==>
      existing[i] in ConflictsOf(existing, candidate)
    ensures IsSubsequence(ConflictsOf(existing, candidate), existing)
  {
    FilterIsSubsequence(existing, (x: Session) => Conflicts(x, candidate));
  }

  /** Between forward-running sessions, conflict does not depend on which one is the new one. */
  lemma ConflictSymmetric(a: Session, b: Session)
    requires WellOrdered(a) && WellOrdered(b)
    ensures Conflicts(a, b) <==> Conflicts(b, a)
  {
    ThreeCaseIsIntervalOverlap(ParseTime(a.startTime), ParseTime(a.endTime), ParseTime(b.startTime), ParseTime(b.endTime));
    ThreeCaseIsIntervalOverlap(ParseTime(b.startTime), ParseTime(b.endTime), ParseTime(a.startTime), ParseTime(a.endTime));
  }

  /** A session that starts the minute another ends does not conflict with it, either way round. */
  lemma BackToBackNoConflict(earlier: Session, later: Session)
    requires WellOrdered(earlier) && WellOrdered(later)
    requires ParseTime(earlier.endTime) == ParseTime(later.startTime)
    ensures !Conflicts(earlier, later) && !Conflicts(later, earlier)
  {
  }

  // ---------------------------------------------------------------------------
  // The booking form

  /**
   * What the booking form holds when it is checked or submitted. An empty
   * text stands for an unanswered field; `venue` is the checked venue and
   * `floor` the checked floor.
   */
  datatype BookingForm = BookingForm(
    date: string,
    startTime: Option<TimeOfDay>,
    endTime: Option<TimeOfDay>,
    subject: string,
    venue: string,
    floor: string)

  /** The venue whose radio button carries `data-requires-floor="true"`. */
  predicate RequiresFloor(venue: string) {
    venue == "Masjid Abii Bakar"
  }

  /**
   * `validateStep(step)`. Steps outside 1..4 have no form section and fail.
   * Step 2 needs both times and an end hour after the start hour; step 4
   * needs a floor for the venue that requires one. `otherRequiredFilled` is
   * the generic check that the step's other `required` inputs have a value.
   */
  predicate ValidateStep(step: int, form: BookingForm, otherRequiredFilled: bool) {
    if step < 1 || step > 4 then false
    else if step == 2 && (form.startTime.None? || form.endTime.None?) then false
    else if step == 2 && form.endTime.value.hour <= form.startTime.value.hour then false
    else if step == 4 && RequiresFloor(form.venue) && form.floor == "" then false
    else otherRequiredFilled
  }

  /** Passing step 2 guarantees a forward-running session with a non-empty duration text. */
  lemma StepTwoMeansPositiveDuration(form: BookingForm, otherRequiredFilled: bool)
    requires ValidateStep(2, form, otherRequiredFilled)
    ensures form.startTime.Some? && form.endTime.Some?
    ensures ParseTime(form.startTime) < ParseTime(form.endTime)
    ensures CalculateDuration(form.startTime, form.endTime) != ""
  {
    CalculateDurationMeaning(form.startTime, form.endTime);
  }

  /**
   * Step 2 compares hours only: 09:00 to 09:30 has a positive duration, yet
   * the step rejects it.
   */
  lemma StepTwoComparesHoursOnly(otherRequiredFilled: bool)
    ensures var form := BookingForm("", Some(Clock(9, 0)), Some(Clock(9, 30)), "", "", "");
      !ValidateStep(2, form, otherRequiredFilled) && CalculateDuration(form.startTime, form.endTime) != ""
  {
    CalculateDurationMeaning(Some(Clock(9, 0)), Some(Clock(9, 30)));
  }

  /** `studyMode`: the user's saved preference, else the page-wide mode, else "alone". */
  function ResolveStudyMode(preferred: string, stored: string): (mode: string)
    ensures mode != ""
    ensures mode == preferred || mode == stored || mode == "alone"
    ensures preferred != "" ==> mode == preferred
    ensures preferred == "" && stored != "" ==> mode == stored
  {
    if preferred != "" then preferred else if stored != "" then stored else "alone"
  }

  /** The record the submit handler builds from the form for `owner`. */
  function NewBooking(form: BookingForm, owner: User, id: string, now: int, mode: string): Session {
    Session(
      id, owner.id, owner.username, owner.email,
      form.date, form.startTime, form.endTime,
      CalculateDuration(form.startTime, form.endTime),
      form.subject, form.venue,
      if form.floor == "" then None else Some(form.floor),
      now, mode)
  }

  /** The new booking carries the form's fields, its owner, and the duration the form's times give. */
  lemma NewBookingFields(form: BookingForm, owner: User, id: string, now: int, mode: string)
    ensures var b := NewBooking(form, owner, id, now, mode);
      && b.userId == owner.id && b.date == form.date
      && b.startTime == form.startTime && b.endTime == form.endTime
      && (b.duration == "" <==> !WellOrdered(b) || form.startTime.None? || form.endTime.None?)
      && (b.floor.None? <==> form.floor == "")
  {
    CalculateDurationMeaning(form.startTime, form.endTime);
  }

  /** `timetables[owner].push(s)` after creating the list when absent. */
  function WithAppended(timetables: map<string, seq<Session>>, owner: string, s: Session): (r: map<string, seq<Session>>)
    ensures owner in r && r[owner] == OwnList(timetables, owner) + [s]
    ensures r.Keys == timetables.Keys + {owner}
    ensures forall o :: o in timetables && o != owner ==> r[o] == timetables[o]
  {
    timetables[owner := OwnList(timetables, owner) + [s]]
  }

  /** `bookings.splice(bookings.findIndex(b => b.id === id), 1)` when the index is not -1. */
  function RemoveFirstWithId(s: seq<Session>, id: string): (r: seq<Session>)
    ensures (forall k :: 0 <= k < |s| ==> s[k].id != id) ==> r == s
    ensures (exists k :: 0 <= k < |s| && s[k].id == id) ==>
      exists i :: 0 <= i < |s| && s[i].id == id && (forall k :: 0 <= k < i ==> s[k].id != id)
               && r == s[..i] + s[i + 1..]
  {
    var i := FindIndexById(s, id);
    if i == -1 then s else s[..i] + s[i + 1..]
  }

  /** Removing the first match drops exactly one record with that id. */
  lemma RemoveFirstDropsOne(s: seq<Session>, id: string, i: nat)
    requires i < |s| && s[i].id == id
    ensures |RemoveFirstWithId(s, id)| == |s| - 1
    ensures multiset(RemoveFirstWithId(s, id)) + multiset{s[FindIndexById(s, id)]} == multiset(s)
  {
    var j := FindIndexById(s, id);
    assert j != -1;
    assert RemoveFirstWithId(s, id) == s[..j] + s[j + 1..];
    DropAtKeepsRest(s, j);
  }

  /** Cutting out the record at `j` leaves the others, one fewer. */
  lemma DropAtKeepsRest(s: seq<Session>, j: nat)
    requires j < |s|
    ensures |s[..j] + s[j + 1..]| == |s| - 1
    ensures multiset(s[..j] + s[j + 1..]) + multiset{s[j]} == multiset(s)
  {
    var front, back := s[..j], s[j + 1..];
    assert s == front + [s[j]] + back;
    assert multiset(s) == multiset(front) + multiset{s[j]} + multiset(back);
  }

  /** A 24-hour value and its 12-hour label, one entry of a time picker. */
  datatype TimeOption = TimeOption(value: string, display: string)

  /** Options listing, for each of `count` hours from `first`, the value and label the two functions give. */
  predicate ListsHours(options: seq<TimeOption>, first: nat, count: nat, valueOf: nat -> string, labelOf: nat -> string) {
    && |options| == count
    && forall k :: 0 <= k < count ==> options[k] == TimeOption(valueOf(first + k), labelOf(first + k))
  }

  /** The options of a time picker: the "HH:00" value and the label of each offered hour. */
  predicate OffersHours(options: seq<TimeOption>, first: nat, count: nat, labelOf: nat -> string) {
    ListsHours(options, first, count, SlotValue, labelOf)
  }

  /** Appending the next hour's option extends the listed run by one hour. */
  lemma ListsNextHour(options: seq<TimeOption>, first: nat, count: nat, valueOf: nat -> string, labelOf: nat -> string)
    requires ListsHours(options, first, count, valueOf, labelOf)
    ensures ListsHours(options + [TimeOption(valueOf(first + count), labelOf(first + count))], first, count + 1, valueOf, labelOf)
  {
    var longer := options + [TimeOption(valueOf(first + count), labelOf(first + count))];
    assert forall k :: 0 <= k < count ==> longer[k] == options[k];
  }

  /** The options for the hours `first` up to `end` (exclusive), in order, as a loop appending one hour at a time builds them. */
  function HourRun(first: nat, end: nat, valueOf: nat -> string, labelOf: nat -> string): seq<TimeOption>
    decreases end
  {
    if end <= first then []
    else HourRun(first, end - 1, valueOf, labelOf) + [TimeOption(valueOf(end - 1), labelOf(end - 1))]
  }

  /** One more loop round appends the option of hour `end`. */
  lemma HourRunStep(first: nat, end: nat, valueOf: nat -> string, labelOf: nat -> string)
    requires first <= end
    ensures HourRun(first, end + 1, valueOf, labelOf) == HourRun(first, end, valueOf, labelOf) + [TimeOption(valueOf(end), labelOf(end))]
  {
  }

  /** The run lists each of its hours in order. */
  lemma {:induction false} HourRunLists(first: nat, end: nat, valueOf: nat -> string, labelOf: nat -> string)
    requires first <= end
    ensures ListsHours(HourRun(first, end, valueOf, labelOf), first, end - first, valueOf, labelOf)
    decreases end
  {
    if first < end {
      HourRunLists(first, end - 1, valueOf, labelOf);
      ListsNextHour(HourRun(first, end - 1, valueOf, labelOf), first, end - 1 - first, valueOf, labelOf);
    }
  }

  /** `initializeTimeSlots`: the start picker offers every whole hour 00:00..23:00. */
  method InitializeTimeSlots() returns (times: seq<TimeOption>)
    ensures OffersHours(times, 0, 24, Clock12Label)
  {
    times := [];
    var hour := 0;
    while hour <= 23
      invariant 0 <= hour <= 24
      invariant times == HourRun(0, hour, SlotValue, Clock12Label)
    {
      HourRunStep(0, hour, SlotValue, Clock12Label);
      times := times + [TimeOption(SlotValue(hour), Clock12Label(hour))];
      hour := hour + 1;
    }
    HourRunLists(0, hour, SlotValue, Clock12Label);
  }

  /**
   * `updateEndTimeOptions`: no options without a start; otherwise the whole
   * hours after the start hour, up to 23:00.
   */
  method UpdateEndTimeOptions(start: Option<TimeOfDay>) returns (options: seq<TimeOption>)
    ensures start.None? ==> options == []
    ensures start.Some? ==> OffersHours(options, start.value.hour + 1, 23 - start.value.hour, EndOptionLabel)
  {
    options := [];
    if start.None? {
      return;
    }
    var startHour := start.value.hour;
    var hour := startHour + 1;
    while hour <= 23
      invariant startHour + 1 <= hour <= 24
      invariant options == HourRun(startHour + 1, hour, SlotValue, EndOptionLabel)
    {
      HourRunStep(startHour + 1, hour, SlotValue, EndOptionLabel);
      options := options + [TimeOption(SlotValue(hour), EndOptionLabel(hour))];
      hour := hour + 1;
    }
    assert hour - (startHour + 1) == 23 - startHour;
    HourRunLists(startHour + 1, hour, SlotValue, EndOptionLabel);
  }

  /** Every start option reads back as its hour on the hour and is labelled with its own 12-hour time. */
  lemma StartOptionsAreTheDay(times: seq<TimeOption>, h: nat)
    requires OffersHours(times, 0, 24, Clock12Label) && h < 24
    ensures ParseTime24(times[h].value) == Some(Clock(h, 0))
    ensures ReadClock12Label(times[h].display) == Some(h)
  {
    SlotValueParses(h);
    Clock12LabelRoundTrip(h);
  }

  /**
   * Any end option offered for a start passes the time rule of step 2 and
   * gives a non-empty duration.
   */
  lemma OfferedEndPassesStepTwo(start: TimeOfDay, options: seq<TimeOption>, k: nat, form: BookingForm, otherRequiredFilled: bool)
    requires OffersHours(options, start.hour + 1, 23 - start.hour, EndOptionLabel) && k < |options|
    requires form.startTime == Some(start) && form.endTime == ParseTime24(options[k].value)
    ensures ValidateStep(2, form, otherRequiredFilled) == otherRequiredFilled
    ensures CalculateDuration(form.startTime, form.endTime) != ""
  {
    SlotValueParses(start.hour + 1 + k);
    if otherRequiredFilled {
      StepTwoMeansPositiveDuration(form, otherRequiredFilled);
    } else {
      CalculateDurationMeaning(form.startTime, form.endTime);
    }
  }

  /** Where a submitted booking went. */
  datatype SubmitOutcome =
    | NotSubmitted
    | AddedToTimetable(conflicts: seq<Session>)
    | Booked

  /**
   * The booking page's state: the form's current step, the shared bookings
   * list and the per-user timetables, both held in browser storage.
   */
  class BookingPage {
    var currentStep: int
    var bookings: seq<Session>
    var timetables: map<string, seq<Session>>

    ghost predicate Valid()
      reads this
    {
      1 <= currentStep <= 4
    }

    constructor(storedBookings: seq<Session>, storedTimetables: map<string, seq<Session>>)
      ensures Valid() && currentStep == 1
      ensures bookings == storedBookings && timetables == storedTimetables
    {
      currentStep := 1;
      bookings := storedBookings;
      timetables := storedTimetables;
    }

    /** `goToStep`: targets outside 1..4 are ignored. */
    method GoToStep(step: int)
      requires Valid()
      modifies this`currentStep
      ensures Valid()
      ensures currentStep == if 1 <= step <= 4 then step else old(currentStep)
    {
      if step < 1 || step > 4 {
        return;
      }
      currentStep := step;
    }

    /** A "next" button: advance when the current step validates. */
    method NextStep(form: BookingForm, otherRequiredFilled: bool)
      requires Valid()
      modifies this`currentStep
      ensures Valid()
      ensures currentStep ==
        if ValidateStep(old(currentStep), form, otherRequiredFilled) && old(currentStep) < 4
        then old(currentStep) + 1 else old(currentStep)
    {
      if ValidateStep(currentStep, form, otherRequiredFilled) {
        GoToStep(currentStep + 1);
      }
    }

    /** A "previous" button. */
    method PrevStep()
      requires Valid()
      modifies this`currentStep
      ensures Valid()
      ensures currentStep == if old(currentStep) > 1 then old(currentStep) - 1 else old(currentStep)
    {
      GoToStep(currentStep - 1);
    }

    /**
     * `addToTimetable`: conflicts are computed against the owner's list as it
     * was, then the session is appended whatever they are; the form returns
     * to step 1.
     */
    method AddToTimetable(booking: Session, owner: string) returns (conflicts: seq<Session>)
      modifies this`timetables, this`currentStep
      ensures conflicts == ConflictsOf(OwnList(old(timetables), owner), booking)
      ensures timetables == WithAppended(old(timetables), owner, booking)
      ensures currentStep == 1 && Valid()
    {
      var userTimetable := OwnList(timetables, owner);
      conflicts := CheckTimetableConflicts(userTimetable, booking);
      timetables := timetables[owner := userTimetable + [booking]];
      currentStep := 1;
    }

    /** `addBooking`, its list part: append and return the form to step 1. */
    method AddBooking(booking: Session)
      modifies this`bookings, this`currentStep
      ensures bookings == old(bookings) + [booking]
      ensures currentStep == 1 && Valid()
    {
      bookings := bookings + [booking];
      currentStep := 1;
    }

    /** `deleteBooking`: splice out the first booking with the id, if any. */
    method DeleteBooking(id: string)
      modifies this`bookings
      ensures bookings == RemoveFirstWithId(old(bookings), id)
    {
      var index := FindIndexById(bookings, id);
      if index > -1 {
        bookings := bookings[..index] + bookings[index + 1..];
      }
    }

    /**
     * The submit handler: only step 4 is re-validated. Mode "alone" adds the
     * booking to the owner's timetable, every other mode to the bookings list.
     */
    method Submit(form: BookingForm, otherRequiredFilled: bool, owner: User, newId: string, now: int,
                  preferredMode: string, storedMode: string) returns (outcome: SubmitOutcome)
      requires Valid()
      modifies this
      ensures Valid()
      ensures !ValidateStep(4, form, otherRequiredFilled) ==>
        outcome == NotSubmitted && bookings == old(bookings) && timetables == old(timetables)
        && currentStep == old(currentStep)
      ensures ValidateStep(4, form, otherRequiredFilled) ==>
        var mode := ResolveStudyMode(preferredMode, storedMode);
        var booking := NewBooking(form, owner, newId, now, mode);
        currentStep == 1 &&
        if mode == "alone" then
          && outcome == AddedToTimetable(ConflictsOf(OwnList(old(timetables), owner.id), booking))
          && timetables == WithAppended(old(timetables), owner.id, booking)
          && bookings == old(bookings)
        else
          && outcome == Booked
          && bookings == old(bookings) + [booking]
          && timetables == old(timetables)
    {
      if !ValidateStep(4, form, otherRequiredFilled) {
        return NotSubmitted;
      }
      var mode := ResolveStudyMode(preferredMode, storedMode);
      var booking := NewBooking(form, owner, newId, now, mode);
      if mode == "alone" {
        var conflicts := AddToTimetable(booking, owner.id);
        outcome := AddedToTimetable(conflicts);
      } else {
        AddBooking(booking);
        outcome := Booked;
      }
    }
  }
}
