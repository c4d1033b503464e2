/** The user record and its validation rules (internal/data/users.go). */
module Users {
  import opened Wrappers
  import opened Text
  import opened Validation

  /**
   * The password of a user: the plaintext when one was set in this request
   * (a nil pointer in the source is None) and the bcrypt hash (a nil slice is
   * None; a non-nil empty slice is Some of the empty sequence).
   */
  datatype Password = Password(plaintext: Option<string>, hash: Option<seq<bv8>>)

  datatype User = User(
    id: int,
    createdAt: int,
    name: string,
    email: string,
    password: Password,
    activated: bool,
    version: int)

  /** How ValidateUser ends: it returns, or it panics with a message. */
  datatype Completion = Returned | Panicked(reason: string)

  function NameError(u: User): (r: Option<string>)
    ensures r.Some? <==> u.name == "" || Utf8Length(u.name) > 500
  {
    if u.name == "" then Some("must be provided")
    else if Utf8Length(u.name) > 500 then Some("must not be more than 500 bytes")
    else None
  }

  /** The missing-email error, recorded under the key `emal` as the source spells it. */
  function MissingEmailError(u: User): Option<string>
  {
    if u.email == "" then Some("must be provided") else None
  }

  function EmailFormatError(u: User, matchesEmail: string -> bool): Option<string>
  {
    if matchesEmail(u.email) then None else Some("must be a valid email format")
  }

  /** Only a plaintext that is present is checked, and it fails outside 8 to 72 bytes. */
  function PasswordError(u: User): (r: Option<string>)
    ensures r.Some? <==> u.password.plaintext.Some? && !(8 <= Utf8Length(u.password.plaintext.value) <= 72)
  {
    match u.password.plaintext
    case None => None
    case Some(p) =>
      if p == "" then Some("must be provided")
      else if Utf8Length(p) < 8 then Some("must not be less than 8 bytes")
      else if Utf8Length(p) > 72 then Some("must not be more than 72 bytes")
      else None
  }

  /**
   * The entries ValidateUser records: each failing key with the message of
   * its first failing check. `matchesEmail` stands for the EmailRX pattern.
   */
  function UserErrors(u: User, matchesEmail: string -> bool): Errors
  {
    Put(Put(Put(Put(map[], "name", NameError(u)), "emal", MissingEmailError(u)),
        "email", EmailFormatError(u, matchesEmail)), "password", PasswordError(u))
  }

  // The checks of ValidateUser, group by group, applied in order to the errors already present.

  function ReportName(errors: Errors, input: User): Errors
  {
    Report(Report(errors,
      input.name != "", "name", "must be provided"),
      Utf8Length(input.name) <= 500, "name", "must not be more than 500 bytes")
  }

  function ReportEmail(errors: Errors, input: User, matchesEmail: string -> bool): Errors
  {
    Report(Report(errors,
      input.email != "", "emal", "must be provided"),
      matchesEmail(input.email), "email", "must be a valid email format")
  }

  function ReportPassword(errors: Errors, input: User): Errors
  {
    match input.password.plaintext
    case None => errors
    case Some(p) =>
      Report(Report(Report(errors,
        p != "", "password", "must be provided"),
        Utf8Length(p) >= 8, "password", "must not be less than 8 bytes"),
        Utf8Length(p) <= 72, "password", "must not be more than 72 bytes")
  }

  function ReportUser(before: Errors, input: User, matchesEmail: string -> bool): Errors
  {
    ReportPassword(ReportEmail(ReportName(before, input), input, matchesEmail), input)
  }

  lemma ReportNameAdds(recorded: Errors, before: Errors, input: User)
    requires "name" !in recorded
    ensures ReportName(recorded + before, input) == Put(recorded, "name", NameError(input)) + before
  {
    TwoChecksNewKey(recorded, before, "name", input.name != "", "must be provided",
                    Utf8Length(input.name) <= 500, "must not be more than 500 bytes");
  }

  lemma ReportEmailAdds(recorded: Errors, before: Errors, input: User, matchesEmail: string -> bool)
    requires "emal" !in recorded && "email" !in recorded
    ensures ReportEmail(recorded + before, input, matchesEmail)
         == Put(Put(recorded, "emal", MissingEmailError(input)), "email", EmailFormatError(input, matchesEmail)) + before
  {
    ReportNewKey(recorded, before, input.email != "", "emal", "must be provided");
    var withEmal := Put(recorded, "emal", MissingEmailError(input));
    ReportNewKey(withEmal, before, matchesEmail(input.email), "email", "must be a valid email format");
  }

  lemma ReportPasswordAdds(recorded: Errors, before: Errors, input: User)
    requires "password" !in recorded
    ensures ReportPassword(recorded + before, input) == Put(recorded, "password", PasswordError(input)) + before
  {
    if input.password.plaintext.Some? {
      var p := input.password.plaintext.value;
      ThreeChecksNewKey(recorded, before, "password", p != "", "must be provided",
                        Utf8Length(p) >= 8, "must not be less than 8 bytes",
                        Utf8Length(p) <= 72, "must not be more than 72 bytes");
    }
  }

  /** Running the checks adds UserErrors, keeping every entry that was already there. */
  lemma ReportUserAddsUserErrors(before: Errors, input: User, matchesEmail: string -> bool)
    ensures ReportUser(before, input, matchesEmail) == UserErrors(input, matchesEmail) + before
  {
    assert map[] + before == before;
    ReportNameAdds(map[], before, input);
    var withName := Put(map[], "name", NameError(input));
    ReportEmailAdds(withName, before, input, matchesEmail);
    var withEmail := Put(Put(withName, "emal", MissingEmailError(input)), "email", EmailFormatError(input, matchesEmail));
    ReportPasswordAdds(withEmail, before, input);
  }

  /**
   * Runs the checks of the source in order: the password checks only when a
   * plaintext is present. Entries already in the validator are kept; the new
   * ones are UserErrors. Afterwards a missing hash ends the call in a panic,
   * whatever the checks found; the errors are recorded either way.
   */
  method ValidateUser(v: Validator, input: User, matchesEmail: string -> bool) returns (outcome: Completion)
    modifies v
    ensures v.errors == UserErrors(input, matchesEmail) + old(v.errors)
    ensures outcome == if input.password.hash.None? then Panicked("missing hash for user password") else Returned
  {
    ReportUserAddsUserErrors(v.errors, input, matchesEmail);

    v.Check(input.name != "", "name", "must be provided");
    v.Check(Utf8Length(input.name) <= 500, "name", "must not be more than 500 bytes");

    v.Check(input.email != "", "emal", "must be provided");
    v.Check(matchesEmail(input.email), "email", "must be a valid email format");

    if input.password.plaintext.Some? {
      var plaintext := input.password.plaintext.value;
      v.Check(plaintext != "", "password", "must be provided");
      v.Check(Utf8Length(plaintext) >= 8, "password", "must not be less than 8 bytes");
      v.Check(Utf8Length(plaintext) <= 72, "password", "must not be more than 72 bytes");
    }

    if input.password.hash.None? {
      return Panicked("missing hash for user password");
    }
    return Returned;
  }

  /**
   * Which keys get an error: an empty or over-long name under `name`, an
   * empty email under the misspelt `emal`, an email the pattern refuses under
   * `email`, and a present plaintext outside 8 to 72 bytes under `password`.
   * Only these four keys are ever reported.
   */
  lemma UserErrorKeys(u: User, matchesEmail: string -> bool)
    ensures "name" in UserErrors(u, matchesEmail) <==> u.name == "" || Utf8Length(u.name) > 500
    ensures "emal" in UserErrors(u, matchesEmail) <==> u.email == ""
    ensures "email" in UserErrors(u, matchesEmail) <==> !matchesEmail(u.email)
    ensures "password" in UserErrors(u, matchesEmail) <==>
      u.password.plaintext.Some? && !(8 <= Utf8Length(u.password.plaintext.value) <= 72)
    ensures UserErrors(u, matchesEmail).Keys <= {"name", "emal", "email", "password"}
  {
    FourPutsKeys("name", NameError(u), "emal", MissingEmailError(u),
                 "email", EmailFormatError(u, matchesEmail), "password", PasswordError(u));
  }

  /** A user passes exactly when the name, the email and any plaintext password are all acceptable. */
  lemma UserValidExactly(u: User, matchesEmail: string -> bool)
    ensures UserErrors(u, matchesEmail) == map[] <==>
      && 1 <= Utf8Length(u.name) <= 500
      && u.email != "" && matchesEmail(u.email)
      && (u.password.plaintext.Some? ==> 8 <= Utf8Length(u.password.plaintext.value) <= 72)
  {
    UserErrorKeys(u, matchesEmail);
    FourPutsKeys("name", NameError(u), "emal", MissingEmailError(u),
                 "email", EmailFormatError(u, matchesEmail), "password", PasswordError(u));
  }

  /** An empty email is reported as missing under `emal`, never under `email` for being empty. */
  lemma MissingEmailKey(u: User, matchesEmail: string -> bool)
    requires u.email == ""
    ensures "emal" in UserErrors(u, matchesEmail) && UserErrors(u, matchesEmail)["emal"] == "must be provided"
    ensures "email" in UserErrors(u, matchesEmail) <==> !matchesEmail("")
  {
  }

  /** Without a plaintext no password error is possible, whatever the hash. */
  lemma NoPlaintextNoPasswordError(u: User, matchesEmail: string -> bool)
    requires u.password.plaintext.None?
    ensures "password" !in UserErrors(u, matchesEmail)
  {
  }

  /** A present plaintext of the wrong length is refused with the message of the first failing bound. */
  lemma PasswordLengthMessages(u: User, matchesEmail: string -> bool)
    requires u.password.plaintext.Some?
    ensures var p := u.password.plaintext.value;
      && (p == "" ==> UserErrors(u, matchesEmail)["password"] == "must be provided")
      && (p != "" && Utf8Length(p) < 8 ==> UserErrors(u, matchesEmail)["password"] == "must not be less than 8 bytes")
      && (Utf8Length(p) > 72 ==> UserErrors(u, matchesEmail)["password"] == "must not be more than 72 bytes")
  {
    var p := u.password.plaintext.value;
    if Utf8Length(p) > 72 {
      assert p != "";
    }
  }

  /** Only the name, the email and the plaintext are examined: ID, timestamps, activation, version and hash never matter. */
  lemma UserErrorsIgnoreBookkeeping(u: User, other: User, matchesEmail: string -> bool)
    requires u.name == other.name && u.email == other.email
    requires u.password.plaintext == other.password.plaintext
    ensures UserErrors(u, matchesEmail) == UserErrors(other, matchesEmail)
  {
    assert NameError(u) == NameError(other) && MissingEmailError(u) == MissingEmailError(other);
    assert EmailFormatError(u, matchesEmail) == EmailFormatError(other, matchesEmail);
    assert PasswordError(u) == PasswordError(other);
  }
}
