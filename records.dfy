/**
 * The records the scripts keep in browser storage: session/booking records
 * (one shape for the `bookings` list and the per-user `timetables` lists) and
 * user accounts (the `users` list).
 */
module Records {
  import opened Wrappers
  import opened TimeArithmetic

  /**
   * A booking or timetable session as the booking form builds it. `timestamp`
   * is the creation instant (the source stores its ISO text); `floor` is
   * `null` unless a floor was picked.
   */
  datatype Session = Session(
    id: string,
    userId: string,
    username: string,
    email: string,
    date: string,
    startTime: Option<TimeOfDay>,
    endTime: Option<TimeOfDay>,
    duration: string,
    subject: string,
    venue: string,
    floor: Option<string>,
    timestamp: int,
    studyMode: string)

  /** An account; `password` holds the text of the password's hash. */
  datatype User = User(id: string, username: string, email: string, password: string, createdAt: int)

  /** `list.findIndex(s => s.id === id)`: the first index holding `id`, or -1. */
  function FindIndexById(s: seq<Session>, id: string): (i: int)
    ensures -1 <= i < |s|
    ensures i == -1 <==> forall k :: 0 <= k < |s| ==> s[k].id != id
    ensures 0 <= i ==> s[i].id == id && forall k :: 0 <= k < i ==> s[k].id != id
    decreases |s|
  {
    if s == [] then -1
    else if s[0].id == id then 0
    else
      var j := FindIndexById(s[1..], id);
      if j == -1 then -1 else j + 1
  }

  /** `users.findIndex(u => u.id === id)`: the first index holding `id`, or -1. */
  function FindUserIndexById(users: seq<User>, id: string): (i: int)
    ensures -1 <= i < |users|
    ensures i == -1 <==> forall k :: 0 <= k < |users| ==> users[k].id != id
    ensures 0 <= i ==> users[i].id == id && forall k :: 0 <= k < i ==> users[k].id != id
    decreases |users|
  {
    if users == [] then -1
    else if users[0].id == id then 0
    else
      var j := FindUserIndexById(users[1..], id);
      if j == -1 then -1 else j + 1
  }

  /** `timetables[owner] || []`: an owner's list, empty when the owner has none. */
  function OwnList(timetables: map<string, seq<Session>>, owner: string): seq<Session> {
    if owner in timetables then timetables[owner] else []
  }
}
