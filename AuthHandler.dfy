/**
 * The frontend's sign-up and sign-in server actions
 * (frontend/src/utils/handlers/Auth.handler.ts). Sign-up runs a cascade of checks,
 * each returning its own message, and then stores one user with a hashed password;
 * sign-in only guards its inputs before handing them to the credentials provider.
 *
 * The user collection is a class holding the stored records; `bcrypt.hash` is the
 * `hash` parameter and the outcome of `User.create` the `creation` parameter.
 */
module AuthHandler {
  import opened Wrappers
  import opened JsValue
  import opened Text
  import opened Schema
  import opened UserValidation

  /** The submitted form: the text entries by name. */
  type FormData = map<string, string>

  /** `formData.get(name)?.toString()` */
  function Entry(form: FormData, name: string): Option<string> {
    if name in form then Some(form[name]) else None
  }

  predicate Filled(v: Option<string>) {
    v.Some? && v.value != ""
  }

  const AllFieldsRequired: string := "All fields are required"
  const InvalidSignUpInput: string := "Invalid signup input"
  const EmailTaken: string := "User with this email already exists"
  const CreateFailed: string := "Failed to create user"

  /** The fields of a sign-up that passed every check. */
  datatype SignUpRequest = SignUpRequest(username: string, email: string, password: string)

  /** The checks before the database is consulted, with the message of the first that fails. */
  function ValidateSignUp(form: FormData, isEmail: string -> bool): (r: Result<SignUpRequest, string>)
    ensures r.Ok? ==>
      && Entry(form, "username") == Some(r.value.username)
      && Entry(form, "email") == Some(r.value.email)
      && Entry(form, "password") == Some(r.value.password)
      && Entry(form, "confirmPassword") == Some(r.value.password)
  {
    var username := Entry(form, "username");
    var email := Entry(form, "email");
    var password := Entry(form, "password");
    var confirmPassword := Entry(form, "confirmPassword");
    if !Filled(username) || !Filled(email) || !Filled(password) || !Filled(confirmPassword) then
      Err(AllFieldsRequired)
    else if password != confirmPassword then
      Err(PasswordsDiffer)
    else
      match SafeParse(SignUpSchema, SignUpInput(username.value, email.value, password.value, confirmPassword.value), isEmail)
      case Err(issues) => Err(if issues[0].message != "" then issues[0].message else InvalidSignUpInput)
      case Ok(_) => Ok(SignUpRequest(username.value, email.value, password.value))
  }

  predicate AllFilled(form: FormData) {
    Filled(Entry(form, "username")) && Filled(Entry(form, "email"))
    && Filled(Entry(form, "password")) && Filled(Entry(form, "confirmPassword"))
  }

  /** An absent or empty field is reported first, whatever else is wrong. */
  lemma MissingFieldFirst(form: FormData, isEmail: string -> bool)
    ensures !AllFilled(form) <==> ValidateSignUp(form, isEmail) == Err(AllFieldsRequired)
  {
    if AllFilled(form) && ValidateSignUp(form, isEmail).Err? {
      var p := Entry(form, "password").value;
      if Entry(form, "password") == Entry(form, "confirmPassword") {
        SignUpFirstIssue(Entry(form, "username").value, Entry(form, "email").value, p, isEmail);
      }
    }
  }

  /** Different passwords are reported next, before the schema is consulted. */
  lemma MismatchBeforeSchema(form: FormData, isEmail: string -> bool)
    requires AllFilled(form)
    ensures ValidateSignUp(form, isEmail) == Err(PasswordsDiffer) <==> Entry(form, "password") != Entry(form, "confirmPassword")
  {
    if Entry(form, "password") == Entry(form, "confirmPassword") {
      SignUpFirstIssue(Entry(form, "username").value, Entry(form, "email").value, Entry(form, "password").value, isEmail);
    }
  }

  /**
   * Past those two checks the schema decides: the username, the email and the
   * password are checked in that order, and its fallback message is never used.
   */
  lemma SchemaDecidesTheRest(form: FormData, isEmail: string -> bool)
    requires AllFilled(form) && Entry(form, "password") == Entry(form, "confirmPassword")
    ensures var username := Entry(form, "username").value;
      var email := Entry(form, "email").value;
      var password := Entry(form, "password").value;
      var r := ValidateSignUp(form, isEmail);
      && (r.Ok? <==> Utf16Length(username) >= 2 && isEmail(email) && Utf16Length(password) >= 6)
      && (r.Err? ==>
            r.error == (if Utf16Length(username) < 2 then UsernameTooShort
                        else if !isEmail(email) then InvalidEmail
                        else PasswordTooShort))
  {
    SignUpFirstIssue(Entry(form, "username").value, Entry(form, "email").value, Entry(form, "password").value, isEmail);
  }

  lemma FallbackMessageUnused(form: FormData, isEmail: string -> bool)
    ensures ValidateSignUp(form, isEmail) != Err(InvalidSignUpInput)
  {
    if AllFilled(form) && Entry(form, "password") == Entry(form, "confirmPassword") {
      SchemaDecidesTheRest(form, isEmail);
    }
  }

  /** What passes the checks is what the sign-up schema accepts, so the two passwords agree. */
  lemma ValidatedMeansAccepted(form: FormData, isEmail: string -> bool)
    requires ValidateSignUp(form, isEmail).Ok?
    ensures var req := ValidateSignUp(form, isEmail).value;
      SafeParse(SignUpSchema, SignUpInput(req.username, req.email, req.password, req.password), isEmail).Ok?
  {
  }

  /** One stored user; the password field holds the hash. */
  datatype UserRecord = UserRecord(username: string, email: string, passwordHash: string)

  datatype Creation = Created | NotCreated | CreateThrew

  datatype SignUpOutcome = SignedUp | Refused(error: string) | Threw

  predicate EmailRegistered(users: seq<UserRecord>, email: string) {
    exists i :: 0 <= i < |users| && users[i].email == email
  }

  predicate EmailsUnique(users: seq<UserRecord>) {
    forall i, j :: 0 <= i < j < |users| ==> users[i].email != users[j].email
  }

  /** `handleSignUp(formData)`: the new user list and the answer. */
  function SignUpSpec(users: seq<UserRecord>, form: FormData, isEmail: string -> bool,
                      hash: string -> string, creation: Creation): (seq<UserRecord>, SignUpOutcome)
  {
    match ValidateSignUp(form, isEmail)
    case Err(message) => (users, Refused(message))
    case Ok(req) =>
      if EmailRegistered(users, req.email) then (users, Refused(EmailTaken))
      else
        match creation
        case CreateThrew => (users, Threw)
        case NotCreated => (users, Refused(CreateFailed))
        case Created => (users + [UserRecord(req.username, req.email, hash(req.password))], SignedUp)
  }

  /**
   * A sign-up adds exactly one user, with the submitted name and email and the hash of
   * the password, when the checks pass, the email is new and the store creates it;
   * otherwise nothing changes.
   */
  lemma SignUpAddsOneUser(users: seq<UserRecord>, form: FormData, isEmail: string -> bool,
                          hash: string -> string, creation: Creation)
    ensures var (after, outcome) := SignUpSpec(users, form, isEmail, hash, creation);
      && (outcome == SignedUp <==>
            ValidateSignUp(form, isEmail).Ok? && !EmailRegistered(users, Entry(form, "email").value) && creation == Created)
      && (outcome == SignedUp ==>
            after == users + [UserRecord(Entry(form, "username").value, Entry(form, "email").value,
                                         hash(Entry(form, "password").value))])
      && (outcome != SignedUp ==> after == users)
  {
  }

  /** A registered email is refused and adds nobody. */
  lemma DuplicateEmailRefused(users: seq<UserRecord>, form: FormData, isEmail: string -> bool,
                              hash: string -> string, creation: Creation)
    requires ValidateSignUp(form, isEmail).Ok?
    requires EmailRegistered(users, Entry(form, "email").value)
    ensures SignUpSpec(users, form, isEmail, hash, creation) == (users, Refused(EmailTaken))
  {
  }

  /** The lookup before creation keeps emails unique in the store. */
  lemma SignUpKeepsEmailsUnique(users: seq<UserRecord>, form: FormData, isEmail: string -> bool,
                                hash: string -> string, creation: Creation)
    requires EmailsUnique(users)
    ensures EmailsUnique(SignUpSpec(users, form, isEmail, hash, creation).0)
  {
    var after := SignUpSpec(users, form, isEmail, hash, creation).0;
    if after != users {
      var req := ValidateSignUp(form, isEmail).value;
      assert !EmailRegistered(users, req.email);
      forall i, j | 0 <= i < j < |after| ensures after[i].email != after[j].email {
        if j == |users| {
          assert after[j].email == req.email;
          assert users[i] == after[i];
        } else {
          assert after[i] == users[i] && after[j] == users[j];
        }
      }
    }
  }

  /** The collection of users. */
  class UserTable {
    var users: seq<UserRecord>

    constructor ()
      ensures users == []
    {
      users := [];
    }

    /** `User.findOne({ email })`, as a yes/no answer. */
    method FindOne(email: string) returns (found: bool)
      ensures found <==> EmailRegistered(users, email)
    {
      found := exists i :: 0 <= i < |users| && users[i].email == email;
    }

    /** `User.create(record)`: stored only when the store reports a created document. */
    method Create(record: UserRecord, creation: Creation) returns (created: bool)
      modifies this
      ensures created <==> creation == Created
      ensures users == if created then old(users) + [record] else old(users)
    {
      created := creation == Created;
      if created {
        users := users + [record];
      }
    }

    method HandleSignUp(form: FormData, isEmail: string -> bool, hash: string -> string, creation: Creation)
      returns (outcome: SignUpOutcome)
      modifies this
      ensures (users, outcome) == SignUpSpec(old(users), form, isEmail, hash, creation)
    {
      var checked := ValidateSignUp(form, isEmail);
      if checked.Err? {
        return Refused(checked.error);
      }
      var req := checked.value;
      var existing := FindOne(req.email);
      if existing {
        return Refused(EmailTaken);
      }
      var hashedPassword := hash(req.password);
      if creation == CreateThrew {
        return Threw;
      }
      var created := Create(UserRecord(req.username, req.email, hashedPassword), creation);
      if !created {
        return Refused(CreateFailed);
      }
      outcome := SignedUp;
    }
  }

  const SignInRequired: string := "Email and password are required"

  /** The call `signIn("credentials", { email, password, redirect: true, redirectTo: "/feed" })`. */
  datatype SignInCall = SignInCall(provider: string, email: string, password: string, redirectTo: string)

  /** `handleSignIn(formData)`: the sign-in call it makes, or the error it throws first. */
  function HandleSignIn(form: FormData): (r: Result<SignInCall, string>)
    ensures r.Err? <==> !Filled(Entry(form, "email")) || !Filled(Entry(form, "password"))
    ensures r.Err? ==> r.error == SignInRequired
    ensures r.Ok? ==> r.value == SignInCall("credentials", form["email"], form["password"], "/feed")
  {
    var email := Entry(form, "email");
    var password := Entry(form, "password");
    if !Filled(email) || !Filled(password) then Err(SignInRequired)
    else Ok(SignInCall("credentials", email.value, password.value, "/feed"))
  }

  /** Sign-in does not apply the sign-in schema: a short password is still handed on. */
  lemma SignInSkipsSchema()
    ensures HandleSignIn(map["email" := "a@b.c", "password" := "x"]).Ok?
  {
  }
}
