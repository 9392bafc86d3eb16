/** The administrator area (src/AdminArea.jsx): the rules a new local
    administrator's name and password must meet, the strength meter shown
    while the password is typed, and the creation of the administrator and
    the login against it. The password hash (SHA-256 in hex) is a
    parameter. */
module AdminArea {
  import opened Wrappers
  import JsString

  /** The shortest name and password accepted. */
  const MinLength := 12

  const UsernameError := "Benutzername muss mindestens 12 Zeichen lang sein"

  /** `validateUsername`: an error exactly for a name shorter than twelve. */
  function ValidateUsername(username: string): (r: Option<string>)
    ensures r.Some? <==> |username| < MinLength
    ensures r.Some? ==> r.value == UsernameError
  {
    if |username| < MinLength then Some(UsernameError) else None
  }

  // ---------------------------------------------------------------------
  // Character classes of the rules

  /** The class `[!@#$%^&*()_+\-=\[\]{};':"\\|,.<>\/?]`. */
  predicate IsSpecial(c: char) {
    c in "!@#$%^&*()_+-=[]{};':\"\\|,.<>/?"
  }

  /** `/[a-z]/.test(password)`. */
  predicate HasLower(p: string) {
    exists i :: 0 <= i < |p| && JsString.IsAsciiLower(p[i])
  }

  /** `/[A-Z]/.test(password)`. */
  predicate HasUpper(p: string) {
    exists i :: 0 <= i < |p| && JsString.IsAsciiUpper(p[i])
  }

  /** `/[0-9]/.test(password)`. */
  predicate HasDigit(p: string) {
    exists i :: 0 <= i < |p| && JsString.IsAsciiDigit(p[i])
  }

  predicate HasSpecial(p: string) {
    exists i :: 0 <= i < |p| && IsSpecial(p[i])
  }

  // ---------------------------------------------------------------------
  // validatePassword

  /** The four password rules, in the order they are checked. */
  datatype Rule = LongEnough | Lowercase | Uppercase | Special

  const Rules := [LongEnough, Lowercase, Uppercase, Special]

  predicate Passes(rule: Rule, p: string) {
    match rule
    case LongEnough => |p| >= MinLength
    case Lowercase => HasLower(p)
    case Uppercase => HasUpper(p)
    case Special => HasSpecial(p)
  }

  /** The message a failed rule adds. */
  function Message(rule: Rule): string {
    match rule
    case LongEnough => "Mindestens 12 Zeichen"
    case Lowercase => "Mindestens 1 Kleinbuchstabe"
    case Uppercase => "Mindestens 1 Großbuchstabe"
    case Special => "Mindestens 1 Sonderzeichen"
  }

  /** The message of one rule, if it fails. */
  function Check(rule: Rule, p: string): seq<string> {
    if Passes(rule, p) then [] else [Message(rule)]
  }

  /** The messages of the failed rules among `rules`, in their order. */
  function Failures(rules: seq<Rule>, p: string): seq<string>
    decreases |rules|
  {
    if rules == [] then [] else Check(rules[0], p) + Failures(rules[1..], p)
  }

  /** The failures of the four rules, one after the other. */
  lemma FailuresUnfold(p: string)
    ensures Failures(Rules, p) == Check(LongEnough, p) + Check(Lowercase, p) + Check(Uppercase, p) + Check(Special, p)
  {
    var r := Rules;
    assert r[1..] == [Lowercase, Uppercase, Special];
    assert r[1..][1..] == [Uppercase, Special];
    assert r[1..][1..][1..] == [Special];
    assert r[1..][1..][1..][1..] == [];
    assert Failures([Special], p) == Check(Special, p);
  }

  /** `validatePassword`: the errors pushed one rule after the other, and
      null when there are none. */
  method ValidatePassword(password: string) returns (r: Option<seq<string>>)
    ensures r == (if Failures(Rules, password) == [] then None else Some(Failures(Rules, password)))
  {
    var errors: seq<string> := [];
    if |password| < MinLength {
      errors := errors + [Message(LongEnough)];
    }
    assert errors == Check(LongEnough, password);
    if !HasLower(password) {
      errors := errors + [Message(Lowercase)];
    }
    assert errors == Check(LongEnough, password) + Check(Lowercase, password);
    if !HasUpper(password) {
      errors := errors + [Message(Uppercase)];
    }
    assert errors == Check(LongEnough, password) + Check(Lowercase, password) + Check(Uppercase, password);
    if !HasSpecial(password) {
      errors := errors + [Message(Special)];
    }
    FailuresUnfold(password);
    assert errors == Failures(Rules, password);
    r := if |errors| > 0 then Some(errors) else None;
  }

  /** A password is accepted (no errors) exactly when it is at least
      twelve long and has a lower-case letter, an upper-case letter and a
      listed special character; digits are not required. Each failed rule
      adds one message. */
  lemma ValidatePasswordSpec(p: string)
    ensures Failures(Rules, p) == [] <==> |p| >= MinLength && HasLower(p) && HasUpper(p) && HasSpecial(p)
    ensures |Failures(Rules, p)| ==
      (if |p| >= MinLength then 0 else 1) + (if HasLower(p) then 0 else 1) +
      (if HasUpper(p) then 0 else 1) + (if HasSpecial(p) then 0 else 1)
  {
    FailuresUnfold(p);
  }

  /** The messages of the rules differ, so a message is in a rule's check
      only when it is that rule's and the rule fails. */
  lemma MessageInCheck(rule: Rule, other: Rule, p: string)
    ensures Message(rule) in Check(other, p) <==> rule == other && !Passes(other, p)
  {
    if rule != other {
      assert Message(rule) != Message(other) by {
        assert Message(rule)[12] != Message(other)[12] || Message(rule)[13] != Message(other)[13];
      }
    }
  }

  /** A rule's message is among the errors exactly when the rule fails. */
  lemma RuleMessages(p: string, rule: Rule)
    ensures Message(rule) in Failures(Rules, p) <==> !Passes(rule, p)
  {
    FailuresUnfold(p);
    MessageInCheck(rule, LongEnough, p);
    MessageInCheck(rule, Lowercase, p);
    MessageInCheck(rule, Uppercase, p);
    MessageInCheck(rule, Special, p);
  }

  // ---------------------------------------------------------------------
  // calculatePasswordStrength

  datatype Level = Weak | Medium | Strong

  /** The score's increments, as the meter adds them. */
  function Score(p: string): int {
    (if |p| >= 12 then 25 else 0) + (if |p| >= 16 then 15 else 0) +
    (if HasLower(p) then 15 else 0) + (if HasUpper(p) then 15 else 0) +
    (if HasDigit(p) then 15 else 0) + (if HasSpecial(p) then 15 else 0)
  }

  /** Weak up to 40, medium up to 70, strong above. */
  function LevelOf(strength: int): (l: Level)
    ensures l == Weak <==> strength <= 40
    ensures l == Strong <==> strength > 70
  {
    if strength <= 40 then Weak else if strength <= 70 then Medium else Strong
  }

  /** The meter's computation, one increment after another. */
  method CalculatePasswordStrength(password: string) returns (strength: int, level: Level)
    ensures strength == Score(password) && level == LevelOf(strength)
    ensures 0 <= strength <= 100
  {
    strength := 0;
    if |password| >= 12 { strength := strength + 25; }
    if |password| >= 16 { strength := strength + 15; }
    if HasLower(password) { strength := strength + 15; }
    if HasUpper(password) { strength := strength + 15; }
    if HasDigit(password) { strength := strength + 15; }
    if HasSpecial(password) { strength := strength + 15; }
    level := LevelOf(strength);
  }

  /** The score lies in [0, 100]; it is 100 exactly for a password of at
      least sixteen with all four character classes. */
  lemma ScoreBounds(p: string)
    ensures 0 <= Score(p) <= 100
    ensures Score(p) == 100 <==> |p| >= 16 && HasLower(p) && HasUpper(p) && HasDigit(p) && HasSpecial(p)
  {
  }

  /** A password shorter than twelve scores at most 60 and is never
      strong. */
  lemma ShortNeverStrong(p: string)
    requires |p| < MinLength
    ensures Score(p) <= 60 && LevelOf(Score(p)) != Strong
  {
  }

  /** A password the rules accept scores at least 70, so it is at least
      medium. */
  lemma AcceptedAtLeastMedium(p: string)
    requires Failures(Rules, p) == []
    ensures Score(p) >= 70 && LevelOf(Score(p)) != Weak
  {
    ValidatePasswordSpec(p);
  }

  // ---------------------------------------------------------------------
  // Creating the administrator and logging in

  /** The `errors` object of `handleCreateAdminUser`. */
  datatype FormErrors = FormErrors(username: Option<string>, password: Option<seq<string>>,
                                   confirmPassword: Option<string>)

  const MismatchError := "Passwörter stimmen nicht überein"

  /** The stored administrator: name, password hash and creation time. */
  datatype AdminRecord = AdminRecord(username: string, passwordHash: string, createdAt: string)

  /** The session's administrator. */
  datatype AdminSession = AdminSession(username: string, createdAt: string)

  /** The form's errors, or none when the form is accepted. */
  function CreateErrors(username: string, password: string, confirm: string): (r: Option<FormErrors>)
    ensures r.None? <==> |username| >= MinLength && Failures(Rules, password) == [] && password == confirm
  {
    var e := FormErrors(ValidateUsername(username),
                        if Failures(Rules, password) == [] then None else Some(Failures(Rules, password)),
                        if password != confirm then Some(MismatchError) else None);
    if e.username.None? && e.password.None? && e.confirmPassword.None? then None else Some(e)
  }

  const MissingFields := "Bitte Username und Passwort eingeben"
  const NoAdmin := "Kein Admin-Benutzer gefunden. Bitte Setup erneut durchführen."
  const BadCredentials := "Ungültige Anmeldedaten"

  /** The outcome of a login: the session, or the error shown. */
  function LoginOutcome(stored: Option<AdminRecord>, username: string, password: string,
                        hash: string -> string): (r: Result<AdminSession>)
    ensures r.Ok? <==> username != "" && password != "" && stored.Some? &&
                       stored.value.username == username && stored.value.passwordHash == hash(password)
    ensures r.Ok? ==> r.value == AdminSession(username, stored.value.createdAt)
    ensures (username == "" || password == "") ==> r == Err(MissingFields)
  {
    if username == "" || password == "" then Err(MissingFields)
    else if stored.None? then Err(NoAdmin)
    else if stored.value.username == username && stored.value.passwordHash == hash(password)
    then Ok(AdminSession(stored.value.username, stored.value.createdAt))
    else Err(BadCredentials)
  }

  /** An administrator created from an accepted form can log in with the
      same name and password, and a password of a different hash fails. */
  lemma CreateThenLogin(username: string, password: string, other: string, hash: string -> string, now: string)
    requires CreateErrors(username, password, password).None?
    requires hash(other) != hash(password)
    ensures LoginOutcome(Some(AdminRecord(username, hash(password), now)), username, password, hash) ==
      Ok(AdminSession(username, now))
    ensures LoginOutcome(Some(AdminRecord(username, hash(password), now)), username, other, hash).Err?
  {
  }

  class AdminAreaState {
    var setupComplete: bool
    var validationErrors: Option<FormErrors>
    /** The `localAdminUser` entry of local storage. */
    var storedAdmin: Option<AdminRecord>
    var isAdminLoggedIn: bool
    var adminUser: Option<AdminSession>
    var loginUsername: string
    var loginPassword: string
    var loginError: Option<string>
    var isLoggingIn: bool

    /** `handleCreateAdminUser`: with an error in the form, the errors are
        shown and nothing is stored; otherwise the administrator is stored
        with the hash of the password and the setup is complete. */
    method CreateAdminUser(username: string, password: string, confirm: string, hash: string -> string, now: string)
      modifies this
      ensures CreateErrors(username, password, confirm).Some? ==>
        validationErrors == CreateErrors(username, password, confirm) &&
        storedAdmin == old(storedAdmin) && setupComplete == old(setupComplete)
      ensures CreateErrors(username, password, confirm).None? ==>
        storedAdmin == Some(AdminRecord(username, hash(password), now)) && setupComplete &&
        validationErrors == old(validationErrors)
      ensures isAdminLoggedIn == old(isAdminLoggedIn) && adminUser == old(adminUser)
      ensures loginUsername == old(loginUsername) && loginPassword == old(loginPassword)
      ensures loginError == old(loginError) && isLoggingIn == old(isLoggingIn)
    {
      var errors := CreateErrors(username, password, confirm);
      if errors.Some? {
        validationErrors := errors;
        return;
      }
      storedAdmin := Some(AdminRecord(username, hash(password), now));
      setupComplete := true;
    }

    /** `handleAdminLogin` with the entered name and password. */
    method AdminLogin(hash: string -> string)
      modifies this
      ensures var r := LoginOutcome(old(storedAdmin), old(loginUsername), old(loginPassword), hash);
        (r.Ok? ==> isAdminLoggedIn && adminUser == Some(r.value) && loginError.None?) &&
        (r.Err? ==> loginError == Some(r.error) && isAdminLoggedIn == old(isAdminLoggedIn) &&
                    adminUser == old(adminUser))
      ensures storedAdmin == old(storedAdmin) && setupComplete == old(setupComplete)
      ensures validationErrors == old(validationErrors)
      ensures loginUsername == old(loginUsername) && loginPassword == old(loginPassword)
      ensures (old(loginUsername) != "" && old(loginPassword) != "") ==> !isLoggingIn
      ensures (old(loginUsername) == "" || old(loginPassword) == "") ==> isLoggingIn == old(isLoggingIn)
    {
      if loginUsername == "" || loginPassword == "" {
        loginError := Some(MissingFields);
        return;
      }
      isLoggingIn := true;
      loginError := None;
      if storedAdmin.None? {
        loginError := Some(NoAdmin);
        isLoggingIn := false;
        return;
      }
      var admin := storedAdmin.value;
      var entered := hash(loginPassword);
      if admin.username == loginUsername && admin.passwordHash == entered {
        adminUser := Some(AdminSession(admin.username, admin.createdAt));
        isAdminLoggedIn := true;
      } else {
        loginError := Some(BadCredentials);
      }
      isLoggingIn := false;
    }

    /** `handleLogout`: the session ends and the login form is cleared. */
    method Logout()
      modifies this
      ensures !isAdminLoggedIn && adminUser.None? && loginUsername == "" && loginPassword == ""
      ensures storedAdmin == old(storedAdmin) && setupComplete == old(setupComplete)
      ensures validationErrors == old(validationErrors) && loginError == old(loginError)
      ensures isLoggingIn == old(isLoggingIn)
    {
      isAdminLoggedIn := false;
      adminUser := None;
      loginUsername, loginPassword := "", "";
    }
  }
}
