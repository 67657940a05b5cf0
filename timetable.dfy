/**
 * The personal timetable page (js/timetable.js): the signed-in user's list in
 * the `timetables` store, grouped by date for display, edited one session at
 * a time through a modal, and filtered on delete.
 */
module Timetable {
  import opened Wrappers
  import opened Seqs
  import opened TimeArithmetic
  import opened Records
  import Sessions

  // ---------------------------------------------------------------------------
  // Grouping by date

  /** The sessions of `s` held on date `d`, in their order in `s`. */
  function OnDate(s: seq<Session>, d: string): seq<Session> {
    Filter(s, (x: Session) => x.date == d)
  }

  /** `groupByDate`: a left fold that appends each session to the group of its date. */
  function GroupByDate(sessions: seq<Session>): map<string, seq<Session>>
    decreases |sessions|
  {
    if sessions == [] then map[]
    else
      var acc := GroupByDate(sessions[..|sessions| - 1]);
      var x := sessions[|sessions| - 1];
      acc[x.date := (if x.date in acc then acc[x.date] else []) + [x]]
  }

  /** There is a group for a date exactly when some session is on that date. */
  lemma {:induction false} GroupByDateKeys(sessions: seq<Session>)
    ensures forall d :: d in GroupByDate(sessions) <==> exists k :: 0 <= k < |sessions| && sessions[k].date == d
    decreases |sessions|
  {
    if sessions != [] {
      var init, x := sessions[..|sessions| - 1], sessions[|sessions| - 1];
      GroupByDateKeys(init);
      var before := GroupByDate(init);
      assert GroupByDate(sessions).Keys == before.Keys + {x.date};
      forall d
        ensures d in GroupByDate(sessions) <==> exists k :: 0 <= k < |sessions| && sessions[k].date == d
      {
        if d == x.date {
          assert sessions[|sessions| - 1].date == d;
        } else {
          if d in before {
            var k :| 0 <= k < |init| && init[k].date == d;
            assert sessions[k] == init[k];
          }
          if exists k :: 0 <= k < |sessions| && sessions[k].date == d {
            var k :| 0 <= k < |sessions| && sessions[k].date == d;
            assert k < |init| && init[k] == sessions[k];
          }
        }
      }
    }
  }

  /**
   * Each group is the sessions on its date in their original order, so every
   * session sits in exactly one group: the one of its own date.
   */
  lemma {:induction false} GroupByDateGroups(sessions: seq<Session>)
    ensures forall d :: d in GroupByDate(sessions) ==> GroupByDate(sessions)[d] == OnDate(sessions, d)
    decreases |sessions|
  {
    if sessions != [] {
      var init, x := sessions[..|sessions| - 1], sessions[|sessions| - 1];
      GroupByDateGroups(init);
      GroupByDateKeys(init);
      var before := GroupByDate(init);
      var g := GroupByDate(sessions);
      assert g == before[x.date := (if x.date in before then before[x.date] else []) + [x]];
      forall d | d in g
        ensures g[d] == OnDate(sessions, d)
      {
        if d == x.date && d !in before {
          FilterNonePass(init, (y: Session) => y.date == d);
        }
      }
    }
  }

  // ---------------------------------------------------------------------------
  // Deleting

  /** `list.filter(s => s.id !== id)`. */
  function RemoveAllWithId(s: seq<Session>, id: string): (r: seq<Session>)
    ensures forall k :: 0 <= k < |r| ==> r[k].id != id && r[k] in s
    ensures forall k :: 0 <= k < |s| && s[k].id != id ==> s[k] in r
  {
    Filter(s, (x: Session) => x.id != id)
  }

  /** Deleting keeps the other sessions in order and drops exactly the ones with the id. */
  lemma RemoveAllKeepsOthersInOrder(s: seq<Session>, id: string)
    ensures IsSubsequence(RemoveAllWithId(s, id), s)
    ensures |RemoveAllWithId(s, id)| + |Filter(s, (x: Session) => x.id == id)| == |s|
  {
    FilterIsSubsequence(s, (x: Session) => x.id != id);
    FilterSplitsLength(s, (x: Session) => x.id != id, (x: Session) => x.id == id);
  }

  /** Deleting an id that is not there changes nothing. */
  lemma RemoveAllAbsent(s: seq<Session>, id: string)
    requires forall k :: 0 <= k < |s| ==> s[k].id != id
    ensures RemoveAllWithId(s, id) == s
  {
    FilterAllPass(s, (x: Session) => x.id != id);
  }

  /** Deleting the same id twice is deleting it once. */
  lemma RemoveAllIdempotent(s: seq<Session>, id: string)
    ensures RemoveAllWithId(RemoveAllWithId(s, id), id) == RemoveAllWithId(s, id)
  {
    FilterIdempotent(s, (x: Session) => x.id != id);
  }

  /**
   * The two pages disagree on duplicated ids: the booking page's delete keeps
   * a later record with the same id, the timetable page's delete drops it.
   */
  lemma FirstMatchVersusAllMatches(s: seq<Session>, id: string, i: nat, j: nat)
    requires i < j < |s| && s[i].id == id && s[j].id == id
    ensures s[j] in Sessions.RemoveFirstWithId(s, id)
    ensures s[j] !in RemoveAllWithId(s, id)
  {
    var f := FindIndexById(s, id);
    var r := Sessions.RemoveFirstWithId(s, id);
    assert r == s[..f] + s[f + 1..];
    assert r[j - 1] == s[j];
  }

  // ---------------------------------------------------------------------------
  // Editing

  /** The fields of the edit form; an empty `floor` is the "None" option. */
  datatype EditForm = EditForm(
    date: string,
    startTime: Option<TimeOfDay>,
    endTime: Option<TimeOfDay>,
    subject: string,
    venue: string,
    floor: string)

  /** `{ ...session, date, startTime, endTime, duration, subject, venue, floor }`. */
  function MergeEdit(s: Session, form: EditForm): Session {
    s.(date := form.date, startTime := form.startTime, endTime := form.endTime,
       duration := CalculateDuration(form.startTime, form.endTime),
       subject := form.subject, venue := form.venue,
       floor := if form.floor == "" then None else Some(form.floor))
  }

  /**
   * An edit keeps who and when (id, owner, creation time, study mode), takes
   * the rest from the form, and stores an empty duration, with no rejection,
   * when the new times are missing or run backwards.
   */
  lemma MergeEditFields(s: Session, form: EditForm)
    ensures var r := MergeEdit(s, form);
      && r.id == s.id && r.userId == s.userId && r.username == s.username && r.email == s.email
      && r.timestamp == s.timestamp && r.studyMode == s.studyMode
      && r.date == form.date && r.startTime == form.startTime && r.endTime == form.endTime
      && r.subject == form.subject && r.venue == form.venue
      && (r.floor.None? <==> form.floor == "")
      && (r.duration == "" <==> form.startTime.None? || form.endTime.None? || ParseTime(form.endTime) <= ParseTime(form.startTime))
  {
    CalculateDurationMeaning(form.startTime, form.endTime);
  }

  /** The list after an edit of the session `id`: only the first session with that id changes. */
  function ApplyEdit(list: seq<Session>, id: string, form: EditForm): (r: seq<Session>)
    ensures |r| == |list|
    ensures forall k :: 0 <= k < |list| ==> r[k].id == list[k].id
    ensures forall k :: 0 <= k < |list| && k != FindIndexById(list, id) ==> r[k] == list[k]
    ensures FindIndexById(list, id) == -1 ==> r == list
    ensures FindIndexById(list, id) != -1 ==>
      r[FindIndexById(list, id)] == MergeEdit(list[FindIndexById(list, id)], form)
  {
    var i := FindIndexById(list, id);
    if i == -1 then list else list[i := MergeEdit(list[i], form)]
  }

  /** After an edit the same session is found at the same place, so a second edit replaces it again. */
  lemma ApplyEditKeepsPosition(list: seq<Session>, id: string, form: EditForm)
    ensures FindIndexById(ApplyEdit(list, id, form), id) == FindIndexById(list, id)
  {
    var r := ApplyEdit(list, id, form);
    var i := FindIndexById(list, id);
    if i == -1 {
      assert forall k :: 0 <= k < |r| ==> r[k].id != id;
    } else {
      assert r[i].id == id;
      assert forall k :: 0 <= k < i ==> r[k].id != id;
    }
  }

  /** The timetable page's state: its signed-in user, the `timetables` store and the session being edited. */
  class TimetablePage {
    const userId: string
    var timetables: map<string, seq<Session>>
    var editingSessionId: Option<string>

    constructor(userId: string, storedTimetables: map<string, seq<Session>>)
      ensures this.userId == userId && timetables == storedTimetables && editingSessionId.None?
    {
      this.userId := userId;
      timetables := storedTimetables;
      editingSessionId := None;
    }

    /** `openEditModal`: remember the id only if the user's list holds that session. */
    method OpenEditModal(sessionId: string)
      modifies this`editingSessionId
      ensures editingSessionId ==
        if FindIndexById(OwnList(timetables, userId), sessionId) == -1 then old(editingSessionId) else Some(sessionId)
    {
      var userTimetable := OwnList(timetables, userId);
      var index := FindIndexById(userTimetable, sessionId);
      if index == -1 {
        return;
      }
      editingSessionId := Some(sessionId);
    }

    /** `closeEditModal`. */
    method CloseEditModal()
      modifies this`editingSessionId
      ensures editingSessionId.None?
    {
      editingSessionId := None;
    }

    /**
     * `saveEditedSession`: with no session being edited (or an empty id), or
     * one no longer in the list, nothing changes. Otherwise the session is
     * replaced by its merge with the form, the other users' lists are kept,
     * and the modal closes. The times are not checked against each other.
     */
    method SaveEditedSession(form: EditForm)
      modifies this`timetables, this`editingSessionId
      ensures old(editingSessionId).None? || old(editingSessionId) == Some("") ==>
        timetables == old(timetables) && editingSessionId == old(editingSessionId)
      ensures old(editingSessionId).Some? && old(editingSessionId) != Some("") ==>
        var id, own := old(editingSessionId).value, OwnList(old(timetables), userId);
        if FindIndexById(own, id) == -1 then
          timetables == old(timetables) && editingSessionId == old(editingSessionId)
        else
          && timetables == old(timetables)[userId := ApplyEdit(own, id, form)]
          && editingSessionId.None?
    {
      if editingSessionId.None? || editingSessionId.value == "" {
        return;
      }
      var id := editingSessionId.value;
      var userTimetable := OwnList(timetables, userId);
      var sessionIndex := FindIndexById(userTimetable, id);
      if sessionIndex == -1 {
        return;
      }
      userTimetable := userTimetable[sessionIndex := MergeEdit(userTimetable[sessionIndex], form)];
      timetables := timetables[userId := userTimetable];
      CloseEditModal();
    }

    /**
     * `deleteSession`: when confirmed, the user's list becomes its sessions
     * with another id (created empty when absent); other users' lists are kept.
     */
    method DeleteSession(sessionId: string, confirmed: bool)
      modifies this`timetables
      ensures !confirmed ==> timetables == old(timetables)
      ensures confirmed ==>
        timetables == old(timetables)[userId := RemoveAllWithId(OwnList(old(timetables), userId), sessionId)]
    {
      if !confirmed {
        return;
      }
      var userTimetable := OwnList(timetables, userId);
      timetables := timetables[userId := RemoveAllWithId(userTimetable, sessionId)];
    }
  }
}
