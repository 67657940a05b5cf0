/**
 * The profile page (js/profile.js): the account details form with its
 * ordered checks and in-place record updates, the booking counters, and the
 * five most recent bookings.
 */
module Profile {
  import opened Wrappers
  import opened Text
  import opened Seqs
  import opened Records
  import opened EmailAddress
  import opened AuthStore

  // ---------------------------------------------------------------------------
  // The profile form

  /** A character of the class `[a-zA-Z0-9_]`. */
  predicate IsUsernameChar(c: char) {
    ('a' <= c <= 'z') || ('A' <= c <= 'Z') || ('0' <= c <= '9') || c == '_'
  }

  /** `/^[a-zA-Z0-9_]+$/.test(s)`. */
  predicate UsernameCharsOk(s: string) {
    |s| > 0 && forall i :: 0 <= i < |s| ==> IsUsernameChar(s[i])
  }

  /** Another account (a different id) already uses `username`. */
  predicate UsernameTakenByOther(users: seq<User>, id: string, username: string) {
    exists k :: 0 <= k < |users| && users[k].username == username && users[k].id != id
  }

  /** Another account (a different id) already uses `email`. */
  predicate EmailTakenByOther(users: seq<User>, id: string, email: string) {
    exists k :: 0 <= k < |users| && users[k].email == email && users[k].id != id
  }

  /**
   * The first failing check of `handleProfileUpdate` on the form alone, in
   * the page's order, or None. `snapshot` is the signed-in user as read when
   * the page loaded: the "changed" tests and the current-password test
   * compare against it.
   */
  function FormError(snapshot: User, users: seq<User>, username: string, email: string,
                     currentPassword: string, newPassword: string, confirmPassword: string): Option<string>
  {
    if JsLength(username) < 3 || JsLength(username) > 20 then Some("Username must be between 3 and 20 characters")
    else if !UsernameCharsOk(username) then Some("Username can only contain letters, numbers, and underscores")
    else if !IsValidEmail(email) then Some("Please enter a valid email address")
    else if username != snapshot.username && UsernameTakenByOther(users, snapshot.id, username) then Some("Username already taken")
    else if email != snapshot.email && EmailTakenByOther(users, snapshot.id, email) then Some("Email already registered to another account")
    else if newPassword != "" && JsLength(newPassword) < 6 then Some("New password must be at least 6 characters")
    else if newPassword != "" && newPassword != confirmPassword then Some("New passwords do not match")
    else if newPassword != "" && currentPassword == "" then Some("Please enter your current password to change it")
    else if newPassword != "" && PasswordHash(currentPassword) != snapshot.password then Some("Current password is incorrect")
    else None
  }

  /** Every check of `handleProfileUpdate`: the form checks, then the lookup of the stored record. */
  function ProfileError(snapshot: User, users: seq<User>, username: string, email: string,
                        currentPassword: string, newPassword: string, confirmPassword: string): Option<string>
  {
    var formError := FormError(snapshot, users, username, email, currentPassword, newPassword, confirmPassword);
    if formError.Some? then formError
    else if FindUserIndexById(users, snapshot.id) == -1 then Some("User not found")
    else None
  }

  /** The form checks pass exactly when each of them holds. */
  lemma FormAcceptedIff(snapshot: User, users: seq<User>, username: string, email: string,
                        currentPassword: string, newPassword: string, confirmPassword: string)
    ensures FormError(snapshot, users, username, email, currentPassword, newPassword, confirmPassword).None? <==>
      && 3 <= JsLength(username) <= 20
      && UsernameCharsOk(username)
      && IsValidEmail(email)
      && (username != snapshot.username ==> !UsernameTakenByOther(users, snapshot.id, username))
      && (email != snapshot.email ==> !EmailTakenByOther(users, snapshot.id, email))
      && (newPassword != "" ==>
            JsLength(newPassword) >= 6 && newPassword == confirmPassword && currentPassword != ""
            && PasswordHash(currentPassword) == snapshot.password)
  {
  }

  /** The lookup of the stored record succeeds exactly when some account has the snapshot's id. */
  lemma AccountFoundIff(users: seq<User>, id: string)
    ensures FindUserIndexById(users, id) != -1 <==> exists k :: 0 <= k < |users| && users[k].id == id
  {
    if exists k :: 0 <= k < |users| && users[k].id == id {
      var k :| 0 <= k < |users| && users[k].id == id;
      assert users[k].id == id;
    }
  }

  /**
   * An update goes through exactly when the username has 3 to 20 units of
   * letters, digits and underscores, the e-mail matches the address pattern,
   * a changed username or e-mail is not another account's, a new password
   * (if any) is long enough, confirmed and authorised by the right current
   * password, and the account is still in the list.
   */
  lemma ProfileAcceptedIff(snapshot: User, users: seq<User>, username: string, email: string,
                           currentPassword: string, newPassword: string, confirmPassword: string)
    ensures ProfileError(snapshot, users, username, email, currentPassword, newPassword, confirmPassword).None? <==>
      && 3 <= JsLength(username) <= 20
      && UsernameCharsOk(username)
      && EmailPattern(email)
      && (username != snapshot.username ==> !UsernameTakenByOther(users, snapshot.id, username))
      && (email != snapshot.email ==> !EmailTakenByOther(users, snapshot.id, email))
      && (newPassword != "" ==>
            JsLength(newPassword) >= 6 && newPassword == confirmPassword && currentPassword != ""
            && PasswordHash(currentPassword) == snapshot.password)
      && (exists k :: 0 <= k < |users| && users[k].id == snapshot.id)
  {
    FormAcceptedIff(snapshot, users, username, email, currentPassword, newPassword, confirmPassword);
    IsValidEmailMatchesPattern(email);
    AccountFoundIff(users, snapshot.id);
  }

  /** An accepted update has found the account's stored record. */
  lemma AcceptedFindsAccount(snapshot: User, users: seq<User>, username: string, email: string,
                             currentPassword: string, newPassword: string, confirmPassword: string)
    requires ProfileError(snapshot, users, username, email, currentPassword, newPassword, confirmPassword).None?
    ensures 0 <= FindUserIndexById(users, snapshot.id) < |users|
  {
  }

  /** The account record after the update: new username and e-mail, new password hash only if one was given. */
  function UpdatedRecord(u: User, username: string, email: string, newPassword: string): User {
    u.(username := username, email := email,
       password := if newPassword != "" then PasswordHash(newPassword) else u.password)
  }

  /** No two accounts share an id. */
  predicate UniqueIds(users: seq<User>) {
    forall i, j :: 0 <= i < j < |users| ==> users[i].id != users[j].id
  }

  /**
   * When the page's snapshot is still the stored record, an accepted update
   * keeps usernames and e-mails unique: an unchanged value was already the
   * account's own, a changed one was checked against every other account.
   */
  lemma ProfileUpdateKeepsAccountsUnique(snapshot: User, users: seq<User>, username: string, email: string,
                                         currentPassword: string, newPassword: string, confirmPassword: string)
    requires UniqueAccounts(users) && UniqueIds(users)
    requires ProfileError(snapshot, users, username, email, currentPassword, newPassword, confirmPassword).None?
    requires var i := FindUserIndexById(users, snapshot.id);
      0 <= i && users[i].username == snapshot.username && users[i].email == snapshot.email
    ensures var i := FindUserIndexById(users, snapshot.id);
      UniqueAccounts(users[i := UpdatedRecord(users[i], username, email, newPassword)])
  {
    var i := FindUserIndexById(users, snapshot.id);
    FormAcceptedIff(snapshot, users, username, email, currentPassword, newPassword, confirmPassword);
    ReplaceKeepsUnique(users, i, UpdatedRecord(users[i], username, email, newPassword));
  }

  /**
   * Replacing record `i` keeps usernames and e-mails unique when each new
   * value is either the record's old one or used by no other account.
   */
  lemma ReplaceKeepsUnique(users: seq<User>, i: nat, record: User)
    requires UniqueAccounts(users) && UniqueIds(users) && i < |users| && record.id == users[i].id
    requires record.username != users[i].username ==> !UsernameTakenByOther(users, users[i].id, record.username)
    requires record.email != users[i].email ==> !EmailTakenByOther(users, users[i].id, record.email)
    ensures UniqueAccounts(users[i := record])
  {
    var after := users[i := record];
    forall a, b | 0 <= a < b < |after|
      ensures after[a].username != after[b].username && after[a].email != after[b].email
    {
      if a == i || b == i {
        var other := if a == i then b else a;
        assert after[other] == users[other] && users[other].id != users[i].id;
        if record.username == users[i].username {
          assert users[other].username != users[i].username;
        } else {
          assert !UsernameTakenByOther(users, users[i].id, record.username);
        }
        if record.email == users[i].email {
          assert users[other].email != users[i].email;
        } else {
          assert !EmailTakenByOther(users, users[i].id, record.email);
        }
      }
    }
  }

  /** The bookings after the update: the account's own carry the new username and e-mail, the others are untouched. */
  function Relabeled(bookings: seq<Session>, ownerId: string, username: string, email: string): (r: seq<Session>)
    ensures |r| == |bookings|
    ensures forall k :: 0 <= k < |bookings| ==>
      r[k] == if bookings[k].userId == ownerId then bookings[k].(username := username, email := email) else bookings[k]
    decreases |bookings|
  {
    if bookings == [] then []
    else
      var b := bookings[|bookings| - 1];
      Relabeled(bookings[..|bookings| - 1], ownerId, username, email)
        + [if b.userId == ownerId then b.(username := username, email := email) else b]
  }

  /** The `forEach` over the bookings, relabelling the account's own. */
  method RelabelOwnBookings(bookings: seq<Session>, ownerId: string, username: string, email: string)
    returns (relabeled: seq<Session>)
    ensures relabeled == Relabeled(bookings, ownerId, username, email)
  {
    relabeled := bookings;
    var i := 0;
    while i < |bookings|
      invariant 0 <= i <= |bookings| && |relabeled| == |bookings|
      invariant forall k :: 0 <= k < i ==> relabeled[k] == Relabeled(bookings, ownerId, username, email)[k]
      invariant forall k :: i <= k < |bookings| ==> relabeled[k] == bookings[k]
    {
      if relabeled[i].userId == ownerId {
        relabeled := relabeled[i := relabeled[i].(username := username, email := email)];
      }
      i := i + 1;
    }
  }

  /** Relabelling keeps every booking's id and owner, and relabelling twice is relabelling once. */
  lemma RelabelKeepsIdentity(bookings: seq<Session>, ownerId: string, username: string, email: string)
    ensures var r := Relabeled(bookings, ownerId, username, email);
      && (forall k :: 0 <= k < |r| ==> r[k].id == bookings[k].id && r[k].userId == bookings[k].userId)
      && Relabeled(r, ownerId, username, email) == r
  {
    var r := Relabeled(bookings, ownerId, username, email);
    var rr := Relabeled(r, ownerId, username, email);
    assert forall k :: 0 <= k < |r| ==> rr[k] == r[k];
  }

  // ---------------------------------------------------------------------------
  // Counters and the recent list

  /** `bookings.filter(b => b.userId === user.id)`. */
  function OwnBookings(bookings: seq<Session>, ownerId: string): seq<Session> {
    Filter(bookings, (b: Session) => b.userId == ownerId)
  }

  /** The counters of `loadUserStats`. */
  datatype Stats = Stats(total: nat, upcoming: nat, completed: nat)

  /**
   * `loadUserStats`. `instantOf` is `new Date(date)`: None for an invalid
   * date, which compares false both ways and so counts as neither.
   */
  function UserStats(bookings: seq<Session>, ownerId: string, now: int, instantOf: string -> Option<int>): Stats {
    var own := OwnBookings(bookings, ownerId);
    Stats(
      |own|,
      |Filter(own, (b: Session) => instantOf(b.date).Some? && instantOf(b.date).value >= now)|,
      |Filter(own, (b: Session) => instantOf(b.date).Some? && instantOf(b.date).value < now)|)
  }

  /**
   * Upcoming and completed never count a booking twice, and when every own
   * booking has a valid date they add up to the total.
   */
  lemma UserStatsPartition(bookings: seq<Session>, ownerId: string, now: int, instantOf: string -> Option<int>)
    ensures var s := UserStats(bookings, ownerId, now, instantOf);
      s.upcoming + s.completed <= s.total
    ensures var own := OwnBookings(bookings, ownerId);
      (forall k :: 0 <= k < |own| ==> instantOf(own[k].date).Some?) ==>
        var s := UserStats(bookings, ownerId, now, instantOf);
        s.upcoming + s.completed == s.total
  {
    var own := OwnBookings(bookings, ownerId);
    var up := (b: Session) => instantOf(b.date).Some? && instantOf(b.date).value >= now;
    var done := (b: Session) => instantOf(b.date).Some? && instantOf(b.date).value < now;
    FilterDisjointLength(own, up, done);
    if forall k :: 0 <= k < |own| ==> instantOf(own[k].date).Some? {
      FilterSplitsLength(own, up, done);
    }
  }

  /** Newest timestamp first. */
  predicate NewestFirst(s: seq<Session>) {
    forall i, j :: 0 <= i < j < |s| ==> s[i].timestamp >= s[j].timestamp
  }

  /** No entry of `s` is newer than `t`. */
  predicate NoneNewerThan(s: seq<Session>, t: int) {
    forall k :: 0 <= k < |s| ==> s[k].timestamp <= t
  }

  /** Reordering keeps "none newer than t". */
  lemma NoneNewerThanPermuted(a: seq<Session>, b: seq<Session>, t: int)
    requires multiset(a) == multiset(b) && NoneNewerThan(b, t)
    ensures NoneNewerThan(a, t)
  {
    forall k | 0 <= k < |a|
      ensures a[k].timestamp <= t
    {
      assert a[k] in multiset(b);
      var j :| 0 <= j < |b| && b[j] == a[k];
    }
  }

  /** An entry no older than everything after it can lead a newest-first list. */
  lemma PrependNewest(y: Session, rest: seq<Session>)
    requires NewestFirst(rest) && NoneNewerThan(rest, y.timestamp)
    ensures NewestFirst([y] + rest)
  {
    var r := [y] + rest;
    forall i, j | 0 <= i < j < |r|
      ensures r[i].timestamp >= r[j].timestamp
    {
      assert r[j] == rest[j - 1];
      if i > 0 {
        assert r[i] == rest[i - 1];
      }
    }
  }

  /** Inserts `x` into a newest-first list, before the first entry that is not newer. */
  function InsertByTime(x: Session, s: seq<Session>): (r: seq<Session>)
    requires NewestFirst(s)
    ensures NewestFirst(r)
    ensures multiset(r) == multiset(s) + multiset{x}
    ensures |r| == |s| + 1
    decreases |s|
  {
    if s == [] || x.timestamp >= s[0].timestamp then
      assert NoneNewerThan(s, x.timestamp) by {
        assert s != [] ==> forall k :: 0 <= k < |s| ==> s[k].timestamp <= s[0].timestamp;
      }
      PrependNewest(x, s);
      [x] + s
    else
      var rest := InsertByTime(x, s[1..]);
      assert s == [s[0]] + s[1..];
      assert NoneNewerThan(s[1..] + [x], s[0].timestamp);
      NoneNewerThanPermuted(rest, s[1..] + [x], s[0].timestamp);
      PrependNewest(s[0], rest);
      [s[0]] + rest
  }

  /** `sort((a, b) => new Date(b.timestamp) - new Date(a.timestamp))`. */
  function SortNewestFirst(s: seq<Session>): (r: seq<Session>)
    ensures NewestFirst(r)
    ensures multiset(r) == multiset(s)
    ensures |r| == |s|
    decreases |s|
  {
    if s == [] then []
    else
      assert s == [s[0]] + s[1..];
      InsertByTime(s[0], SortNewestFirst(s[1..]))
  }

  /** `loadUserBookings`: the account's bookings, newest first, at most five. */
  function RecentBookings(bookings: seq<Session>, ownerId: string): seq<Session> {
    var sorted := SortNewestFirst(OwnBookings(bookings, ownerId));
    if |sorted| <= 5 then sorted else sorted[..5]
  }

  /** The recent list holds min(5, n) of the account's own bookings, newest first. */
  lemma RecentBookingsShape(bookings: seq<Session>, ownerId: string)
    ensures var own, r := OwnBookings(bookings, ownerId), RecentBookings(bookings, ownerId);
      && |r| == (if |own| < 5 then |own| else 5)
      && NewestFirst(r)
      && multiset(r) <= multiset(own)
      && (forall k :: 0 <= k < |r| ==> r[k].userId == ownerId)
  {
    var own := OwnBookings(bookings, ownerId);
    var sorted := SortNewestFirst(own);
    var r := RecentBookings(bookings, ownerId);
    TakeKeepsOrder(sorted, |r|);
    assert r == sorted[..|r|];
    forall k | 0 <= k < |r|
      ensures r[k].userId == ownerId
    {
      assert r[k] in multiset(own);
      assert r[k] in own;
    }
  }

  /** A leading part of a newest-first list is newest-first and drawn from it. */
  lemma TakeKeepsOrder(s: seq<Session>, n: nat)
    requires n <= |s| && NewestFirst(s)
    ensures NewestFirst(s[..n]) && multiset(s[..n]) <= multiset(s)
  {
    assert s == s[..n] + s[n..];
    assert multiset(s) == multiset(s[..n]) + multiset(s[n..]);
  }

  /** No own booking left out of the recent list is newer than one shown. */
  lemma RecentBookingsAreNewest(bookings: seq<Session>, ownerId: string, b: Session, i: nat)
    requires b in OwnBookings(bookings, ownerId) && b !in RecentBookings(bookings, ownerId)
    requires i < |RecentBookings(bookings, ownerId)|
    ensures b.timestamp <= RecentBookings(bookings, ownerId)[i].timestamp
  {
    var own := OwnBookings(bookings, ownerId);
    var sorted := SortNewestFirst(own);
    var r := RecentBookings(bookings, ownerId);
    assert b in multiset(own);
    assert b in multiset(sorted);
    var j :| 0 <= j < |sorted| && sorted[j] == b;
    assert r[i] == sorted[i];
  }

  // ---------------------------------------------------------------------------
  // The page

  /**
   * The profile page's state. `user` is the signed-in account as read once
   * when the page loaded; `users` and `bookings` are the stored lists;
   * `currentUser` is both `auth.currentUser` and the stored signed-in user.
   */
  class ProfilePage {
    const user: User
    var users: seq<User>
    var bookings: seq<Session>
    var currentUser: Option<User>

    constructor(user: User, storedUsers: seq<User>, storedBookings: seq<Session>)
      ensures this.user == user && users == storedUsers && bookings == storedBookings && currentUser == Some(user)
    {
      this.user := user;
      users := storedUsers;
      bookings := storedBookings;
      currentUser := Some(user);
    }

    /**
     * `handleProfileUpdate`. A failed check changes nothing. Otherwise only
     * the account's stored record changes, it becomes the current user, and
     * the account's bookings are relabelled.
     */
    method HandleProfileUpdate(rawUsername: string, rawEmail: string, currentPassword: string,
                               newPassword: string, confirmPassword: string) returns (outcome: Result<User, string>)
      modifies this
      ensures var username, email := Trim(rawUsername), Trim(rawEmail);
        var error := ProfileError(user, old(users), username, email, currentPassword, newPassword, confirmPassword);
        if error.Some? then
          && outcome == Failure(error.value)
          && users == old(users) && bookings == old(bookings) && currentUser == old(currentUser)
        else
          var i := FindUserIndexById(old(users), user.id);
          && outcome == Success(UpdatedRecord(old(users)[i], username, email, newPassword))
          && users == old(users)[i := outcome.value]
          && currentUser == Some(outcome.value)
          && bookings == Relabeled(old(bookings), user.id, username, email)
    {
      var editUsername := Trim(rawUsername);
      var editEmail := Trim(rawEmail);
      var error := ProfileError(user, users, editUsername, editEmail, currentPassword, newPassword, confirmPassword);
      if error.Some? {
        return Failure(error.value);
      }
      AcceptedFindsAccount(user, users, editUsername, editEmail, currentPassword, newPassword, confirmPassword);
      var userIndex := FindUserIndexById(users, user.id);
      var updated := ApplyUpdate(userIndex, editUsername, editEmail, newPassword);
      outcome := Success(updated);
    }

    /** The writes of a successful update: the stored record, the current user, the bookings. */
    method ApplyUpdate(userIndex: int, username: string, email: string, newPassword: string) returns (updated: User)
      requires 0 <= userIndex < |users|
      modifies this
      ensures updated == UpdatedRecord(old(users)[userIndex], username, email, newPassword)
      ensures users == old(users)[userIndex := updated]
      ensures currentUser == Some(updated)
      ensures bookings == Relabeled(old(bookings), user.id, username, email)
    {
      updated := users[userIndex].(username := username, email := email);
      if newPassword != "" {
        var hashed := HashPassword(newPassword);
        updated := updated.(password := hashed);
      }
      users := users[userIndex := updated];
      currentUser := Some(updated);
      bookings := RelabelOwnBookings(bookings, user.id, username, email);
    }
  }
}
