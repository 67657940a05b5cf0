/**
 * The account store (js/auth.js): class `Auth` over the `users` list and the
 * signed-in user, with the 32-bit rolling hash it stores instead of a
 * password.
 */
module AuthStore {
  import opened Wrappers
  import opened Text
  import opened Records

  // ---------------------------------------------------------------------------
  // 32-bit integers

  const TwoTo32: int := 0x1_0000_0000
  const TwoTo31: int := 0x8000_0000

  predicate IsInt32(x: int) {
    -TwoTo31 <= x < TwoTo31
  }

  /** ECMAScript ToInt32: the 32-bit two's-complement integer congruent to `x` modulo 2^32. */
  function ToInt32(x: int): (r: int)
    ensures IsInt32(r)
    ensures IsInt32(x) ==> r == x
  {
    (x + TwoTo31) % TwoTo32 - TwoTo31
  }

  /** The 32-bit value differs from `x` by a whole number of 2^32 steps. */
  lemma ToInt32Congruent(x: int)
    ensures (x - ToInt32(x)) % TwoTo32 == 0
  {
    var y := x + TwoTo31;
    assert y == TwoTo32 * (y / TwoTo32) + y % TwoTo32;
    assert x - ToInt32(x) == TwoTo32 * (y / TwoTo32);
  }

  /** Adding a multiple of 2^32 does not change the 32-bit value. */
  lemma ToInt32Periodic(x: int, q: int)
    ensures ToInt32(x + TwoTo32 * q) == ToInt32(x)
  {
    var y := x + TwoTo31;
    var d, r := y / TwoTo32, y % TwoTo32;
    assert y == TwoTo32 * d + r && 0 <= r < TwoTo32;
    assert y + TwoTo32 * q == TwoTo32 * (d + q) + r;
  }

  /** One step of the loop as written, `(h << 5) - h + c` then `h & h`, is 31h + c wrapped to 32 bits. */
  lemma ShiftStepIsTimes31(h: int, c: int)
    requires IsInt32(h)
    ensures ToInt32(ToInt32(h * 32) - h + c) == ToInt32(31 * h + c)
  {
    var s := ToInt32(h * 32);
    ToInt32Congruent(h * 32);
    var q := (h * 32 - s) / TwoTo32;
    assert h * 32 - s == TwoTo32 * q;
    assert s - h + c == (31 * h + c) + TwoTo32 * (-q);
    ToInt32Periodic(31 * h + c, -q);
  }

  // ---------------------------------------------------------------------------
  // Password hashing

  /** The hash of a sequence of UTF-16 code units: h := int32(31 * h + unit), from h = 0. */
  function HashOfUnits(units: seq<nat>): (h: int)
    ensures IsInt32(h)
    decreases |units|
  {
    if units == [] then 0 else ToInt32(31 * HashOfUnits(units[..|units| - 1]) + units[|units| - 1])
  }

  /** The text `hashPassword` returns for a password. */
  function PasswordHash(password: string): string {
    IntText(HashOfUnits(CodeUnits(password)))
  }

  /** `hashPassword`: the loop over `charCodeAt(i)`, with the shift and the 32-bit conversion as written. */
  method HashPassword(password: string) returns (hashText: string)
    ensures hashText == PasswordHash(password)
  {
    var units := CodeUnits(password);
    var hash := 0;
    var i := 0;
    while i < |units|
      invariant 0 <= i <= |units|
      invariant hash == HashOfUnits(units[..i])
    {
      var code := units[i];
      ShiftStepIsTimes31(hash, code);
      assert units[..i + 1][..i] == units[..i];
      hash := ToInt32(ToInt32(hash * 32) - hash + code);
      i := i + 1;
    }
    assert units[..i] == units;
    hashText := IntText(hash);
  }

  /** The empty password hashes to "0". */
  lemma EmptyPasswordHash()
    ensures PasswordHash("") == "0"
  {
  }

  /** A character below U+10000 adds one code unit, its own code. */
  lemma CodeUnitsAppend(password: string, c: char)
    requires c as int < 0x1_0000
    ensures CodeUnits(password + [c]) == CodeUnits(password) + [c as int]
  {
    CodeUnitsSnoc(password, c);
  }

  /** One more code unit is one more rolling step. */
  lemma HashOfUnitsAppend(units: seq<nat>, unit: nat)
    ensures HashOfUnits(units + [unit]) == ToInt32(31 * HashOfUnits(units) + unit)
  {
    var longer := units + [unit];
    assert longer[..|longer| - 1] == units && longer[|longer| - 1] == unit;
  }

  /** Appending a character below U+10000 is one more rolling step. */
  lemma HashAppend(password: string, c: char)
    requires c as int < 0x1_0000
    ensures HashOfUnits(CodeUnits(password + [c])) == ToInt32(31 * HashOfUnits(CodeUnits(password)) + c as int)
  {
    var units := CodeUnits(password);
    var unit: nat := c as int;
    CodeUnitsAppend(password, c);
    HashOfUnitsAppend(units, unit);
    calc {
      HashOfUnits(CodeUnits(password + [c]));
      HashOfUnits(units + [unit]);
      ToInt32(31 * HashOfUnits(units) + unit);
    }
  }

  /** A two-unit text hashes to 31a + b, which fits in 32 bits. */
  lemma TwoUnitHash(a: nat, b: nat)
    requires a < 0x1_0000 && b < 0x1_0000
    ensures HashOfUnits([a, b]) == 31 * a + b
  {
    HashOfUnitsAppend([], a);
    assert [] + [a] == [a];
    HashOfUnitsAppend([a], b);
    assert [a] + [b] == [a, b];
  }

  /** Two characters below U+10000 are two code units. */
  lemma TwoCharUnits(x: char, y: char)
    requires x as int < 0x1_0000 && y as int < 0x1_0000
    ensures CodeUnits([x, y]) == [x as int, y as int]
  {
    CodeUnitsAppend([], x);
    assert [] + [x] == [x];
    CodeUnitsAppend([x], y);
    assert [x] + [y] == [x, y];
  }

  /** Different passwords can share a hash: "Aa" and "BB" both hash to "2112". */
  lemma HashCollision(p: string, q: string)
    requires p == "Aa" && q == "BB"
    ensures p != q && PasswordHash(p) == PasswordHash(q)
  {
    assert p == ['A', 'a'] && q == ['B', 'B'];
    TwoCharUnits('A', 'a');
    TwoCharUnits('B', 'B');
    TwoUnitHash('A' as int, 'a' as int);
    TwoUnitHash('B' as int, 'B' as int);
    assert p[0] != q[0];
  }

  // ---------------------------------------------------------------------------
  // Registration and login, as functions of the users list

  predicate UsernameTaken(users: seq<User>, username: string) {
    exists k :: 0 <= k < |users| && users[k].username == username
  }

  predicate EmailTaken(users: seq<User>, email: string) {
    exists k :: 0 <= k < |users| && users[k].email == email
  }

  /** No two accounts share a username or an email. */
  predicate UniqueAccounts(users: seq<User>) {
    forall i, j :: 0 <= i < j < |users| ==> users[i].username != users[j].username && users[i].email != users[j].email
  }

  /** What `register` answers: the username check first, then the email check, else the new account. */
  function RegisterResult(users: seq<User>, username: string, email: string, password: string, newId: string, now: int): Result<User, string> {
    if UsernameTaken(users, username) then Failure("Username already exists")
    else if EmailTaken(users, email) then Failure("Email already registered")
    else Success(User(newId, username, email, PasswordHash(password), now))
  }

  /** The users list after `register` answered `result`. */
  function UsersAfter(users: seq<User>, result: Result<User, string>): seq<User> {
    if result.Success? then users + [result.value] else users
  }

  /**
   * Registration keeps usernames and emails unique, keeps every earlier
   * account, and on success adds exactly one account, holding the password's
   * hash rather than the password.
   */
  lemma RegisterKeepsAccountsUnique(users: seq<User>, username: string, email: string, password: string, newId: string, now: int)
    requires UniqueAccounts(users)
    ensures var result := RegisterResult(users, username, email, password, newId, now);
      && UniqueAccounts(UsersAfter(users, result))
      && UsersAfter(users, result)[..|users|] == users
      && |UsersAfter(users, result)| == |users| + (if result.Success? then 1 else 0)
      && (result.Success? ==> result.value.password == PasswordHash(password))
  {
    var result := RegisterResult(users, username, email, password, newId, now);
    var after := UsersAfter(users, result);
    if result.Success? {
      forall i, j | 0 <= i < j < |after|
        ensures after[i].username != after[j].username && after[i].email != after[j].email
      {
        if j == |users| {
          assert after[i] == users[i];
        }
      }
    }
  }

  /** `users.find(u => u.username === username && u.password === hash)`. */
  function FindLogin(users: seq<User>, username: string, hash: string): (r: Option<User>)
    ensures r.None? <==> forall k :: 0 <= k < |users| ==> !(users[k].username == username && users[k].password == hash)
    ensures r.Some? ==> r.value.username == username && r.value.password == hash
    ensures r.Some? ==> exists i :: (0 <= i < |users| && users[i] == r.value
      && forall k :: 0 <= k < i ==> !(users[k].username == username && users[k].password == hash))
    decreases |users|
  {
    if users == [] then None
    else if users[0].username == username && users[0].password == hash then Some(users[0])
    else
      var r := FindLogin(users[1..], username, hash);
      assert r.Some? ==> exists i :: (1 <= i < |users| && users[i] == r.value
        && forall k :: 1 <= k < i ==> !(users[k].username == username && users[k].password == hash)) by {
        if r.Some? {
          var i :| 0 <= i < |users[1..]| && users[1..][i] == r.value
            && forall k :: 0 <= k < i ==> !(users[1..][k].username == username && users[1..][k].password == hash);
          assert users[i + 1] == r.value;
          forall k | 1 <= k < i + 1
            ensures !(users[k].username == username && users[k].password == hash)
          {
            assert users[k] == users[1..][k - 1];
          }
        }
      }
      r
  }

  /** Right after a successful registration, logging in with the same credentials finds the new account. */
  lemma RegisterThenLogin(users: seq<User>, username: string, email: string, password: string, newId: string, now: int)
    requires RegisterResult(users, username, email, password, newId, now).Success?
    ensures var result := RegisterResult(users, username, email, password, newId, now);
      FindLogin(UsersAfter(users, result), username, PasswordHash(password)) == Some(result.value)
  {
    var result := RegisterResult(users, username, email, password, newId, now);
    var after := UsersAfter(users, result);
    var found := FindLogin(after, username, PasswordHash(password));
    assert after[|users|] == result.value;
  }

  /** The account class: the users list and the signed-in user. */
  class Auth {
    var users: seq<User>
    var currentUser: Option<User>

    /** `new Auth()`: both read from browser storage. */
    constructor(storedUsers: seq<User>, storedCurrentUser: Option<User>)
      ensures users == storedUsers && currentUser == storedCurrentUser
    {
      users := storedUsers;
      currentUser := storedCurrentUser;
    }

    /** `register`: the id and the creation time are the caller's `Date.now()` and `new Date()`. */
    method Register(username: string, email: string, password: string, newId: string, now: int)
      returns (result: Result<User, string>)
      modifies this`users
      ensures result == RegisterResult(old(users), username, email, password, newId, now)
      ensures users == UsersAfter(old(users), result)
    {
      if UsernameTaken(users, username) {
        return Failure("Username already exists");
      }
      if EmailTaken(users, email) {
        return Failure("Email already registered");
      }
      var hashed := HashPassword(password);
      var user := User(newId, username, email, hashed, now);
      users := users + [user];
      result := Success(user);
    }

    /** `login`: the first account with that username and hash becomes the current user. */
    method Login(username: string, password: string) returns (result: Result<User, string>)
      modifies this`currentUser
      ensures FindLogin(users, username, PasswordHash(password)).None? ==>
        result == Failure("Invalid username or password") && currentUser == old(currentUser)
      ensures FindLogin(users, username, PasswordHash(password)).Some? ==>
        result == Success(FindLogin(users, username, PasswordHash(password)).value) && currentUser == Some(result.value)
    {
      var hashed := HashPassword(password);
      var user := FindLogin(users, username, hashed);
      if user.None? {
        return Failure("Invalid username or password");
      }
      currentUser := user;
      result := Success(user.value);
    }

    /** `logout`, without the redirect. */
    method Logout()
      modifies this`currentUser
      ensures currentUser.None?
    {
      currentUser := None;
    }

    /** `isAuthenticated`. */
    predicate IsAuthenticated()
      reads this
    {
      currentUser.Some?
    }

    /** `protectRoute`, without the redirect: whether the page may stay. */
    method ProtectRoute() returns (allowed: bool)
      ensures allowed <==> currentUser.Some?
    {
      allowed := IsAuthenticated();
    }
  }
}
