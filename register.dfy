/**
 * The registration page (js/register.js): an ordered chain of checks on the
 * trimmed form fields, then `auth.register` and, when it succeeds, an
 * automatic `auth.login`.
 */
module Register {
  import opened Wrappers
  import opened Text
  import opened Records
  import opened EmailAddress
  import opened AuthStore

  /** The first failing check of the registration form, in the order the page runs them, or None. */
  function RegistrationError(username: string, email: string, password: string, confirmPassword: string): Option<string> {
    if username == "" || email == "" || password == "" || confirmPassword == "" then Some("Please fill in all fields")
    else if JsLength(username) < 3 then Some("Username must be at least 3 characters")
    else if !IsValidEmail(email) then Some("Please enter a valid email address")
    else if JsLength(password) < 6 then Some("Password must be at least 6 characters")
    else if password != confirmPassword then Some("Passwords do not match")
    else None
  }

  /**
   * The form passes exactly when every field is filled, the username has at
   * least 3 UTF-16 units, the e-mail matches the address pattern, the
   * password has at least 6 units and the confirmation repeats it.
   */
  lemma RegistrationAcceptedIff(username: string, email: string, password: string, confirmPassword: string)
    ensures RegistrationError(username, email, password, confirmPassword).None? <==>
      && username != "" && email != "" && password != "" && confirmPassword != ""
      && JsLength(username) >= 3
      && EmailPattern(email)
      && JsLength(password) >= 6
      && password == confirmPassword
  {
    IsValidEmailMatchesPattern(email);
  }

  /** An empty field is reported before anything else is looked at. */
  lemma EmptyFieldReportedFirst(username: string, email: string, password: string, confirmPassword: string)
    requires username == "" || email == "" || password == "" || confirmPassword == ""
    ensures RegistrationError(username, email, password, confirmPassword) == Some("Please fill in all fields")
  {
  }

  /** What the form submission ended in: the message shown, or the account created and signed in. */
  datatype Outcome = Rejected(message: string) | Registered(user: User)

  /**
   * The submit handler. Username and e-mail are trimmed, the password fields
   * are not. Only when every check passes is the account store touched; a
   * new account is then signed in at once.
   */
  method SubmitRegistration(auth: Auth, rawUsername: string, rawEmail: string, password: string, confirmPassword: string,
                            newId: string, now: int) returns (outcome: Outcome)
    modifies auth
    ensures var username, email := Trim(rawUsername), Trim(rawEmail);
      var error := RegistrationError(username, email, password, confirmPassword);
      if error.Some? then
        outcome == Rejected(error.value) && auth.users == old(auth.users) && auth.currentUser == old(auth.currentUser)
      else
        var result := RegisterResult(old(auth.users), username, email, password, newId, now);
        && auth.users == UsersAfter(old(auth.users), result)
        && (result.Failure? ==> outcome == Rejected(result.error) && auth.currentUser == old(auth.currentUser))
        && (result.Success? ==> outcome == Registered(result.value) && auth.currentUser == Some(result.value))
  {
    var username := Trim(rawUsername);
    var email := Trim(rawEmail);
    var error := RegistrationError(username, email, password, confirmPassword);
    if error.Some? {
      return Rejected(error.value);
    }
    outcome := RegisterAndSignIn(auth, username, email, password, newId, now);
  }

  /**
   * The part of the handler after the checks: `auth.register`, then on
   * success `auth.login` with the same credentials, which finds the new
   * account; a refusal carries the store's message.
   */
  method RegisterAndSignIn(auth: Auth, username: string, email: string, password: string, newId: string, now: int)
    returns (outcome: Outcome)
    modifies auth
    ensures var result := RegisterResult(old(auth.users), username, email, password, newId, now);
      && auth.users == UsersAfter(old(auth.users), result)
      && (result.Failure? ==> outcome == Rejected(result.error) && auth.currentUser == old(auth.currentUser))
      && (result.Success? ==> outcome == Registered(result.value) && auth.currentUser == Some(result.value))
  {
    var before := auth.users;
    var result := auth.Register(username, email, password, newId, now);
    if result.Failure? {
      return Rejected(result.error);
    }
    RegisterThenLogin(before, username, email, password, newId, now);
    var signedIn := auth.Login(username, password);
    outcome := Registered(result.value);
  }
}
