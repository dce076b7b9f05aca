/**
 * The sign-in and sign-up schemas of the frontend
 * (frontend/src/utils/validation/userValidation.ts), as zod object schemas.
 */
module UserValidation {
  import opened Wrappers
  import opened JsValue
  import opened Text
  import opened Schema

  const InvalidEmail: string := "Please enter a valid email address"
  const UsernameTooShort: string := "Username must be at least 2 characters"
  const PasswordTooShort: string := "Password must be at least 6 characters"
  const ConfirmTooShort: string := "Confirm Password must be at least 6 characters"
  const PasswordsDiffer: string := "Passwords do not match"

  const EmailField: Field := Field("email", StringType(Some("Email is required"), [EmailFormat(InvalidEmail)]))
  const PasswordField: Field := Field("password", StringType(Some("Password is required"), [MinLength(6, PasswordTooShort)]))

  const SignInSchema: ObjectSchema := ObjectSchema([EmailField, PasswordField], None)

  const SignUpSchema: ObjectSchema := ObjectSchema([
    Field("username", StringType(Some("Username is required"), [MinLength(2, UsernameTooShort)])),
    EmailField,
    PasswordField,
    Field("confirmPassword", StringType(Some("Confirm Password is required"), [MinLength(6, ConfirmTooShort)]))],
    Some(SameValue("password", "confirmPassword", PasswordsDiffer, ["confirmPassword"])))

  /** A string property of at least `n` UTF-16 code units. */
  predicate StringOfLength(fields: map<string, Value>, name: string, n: nat) {
    Property(fields, name).Str? && Utf16Length(Property(fields, name).s) >= n
  }

  predicate ValidEmail(fields: map<string, Value>, isEmail: string -> bool) {
    Property(fields, "email").Str? && isEmail(Property(fields, "email").s)
  }

  /** Sign-in accepts a well-formed email and a password of at least 6 characters. */
  lemma SignInAccepts(input: Value, isEmail: string -> bool)
    ensures SafeParse(SignInSchema, input, isEmail).Ok? <==>
      input.Object? && ValidEmail(input.fields, isEmail) && StringOfLength(input.fields, "password", 6)
  {
    SafeParseAccepts(SignInSchema, input, isEmail);
    if input.Object? {
      var shape := SignInSchema.shape;
      var f := input.fields;
      if ShapeValid(shape, f, isEmail) {
        assert FieldValid(shape[0].kind, Property(f, shape[0].name), isEmail);
        assert CheckPasses(shape[0].kind.checks[0], Property(f, "email").s, isEmail);
        assert FieldValid(shape[1].kind, Property(f, shape[1].name), isEmail);
        assert CheckPasses(shape[1].kind.checks[0], Property(f, "password").s, isEmail);
      }
    }
  }

  /**
   * Sign-up accepts a username of at least 2 characters, a well-formed email, two
   * passwords of at least 6 characters, and only when the two passwords are equal.
   */
  lemma SignUpAccepts(input: Value, isEmail: string -> bool)
    ensures SafeParse(SignUpSchema, input, isEmail).Ok? <==>
      && input.Object?
      && StringOfLength(input.fields, "username", 2)
      && ValidEmail(input.fields, isEmail)
      && StringOfLength(input.fields, "password", 6)
      && StringOfLength(input.fields, "confirmPassword", 6)
      && Property(input.fields, "password") == Property(input.fields, "confirmPassword")
  {
    SafeParseAccepts(SignUpSchema, input, isEmail);
    if input.Object? {
      var shape := SignUpSchema.shape;
      var f := input.fields;
      if ShapeValid(shape, f, isEmail) {
        assert FieldValid(shape[0].kind, Property(f, shape[0].name), isEmail);
        assert CheckPasses(shape[0].kind.checks[0], Property(f, "username").s, isEmail);
        assert FieldValid(shape[1].kind, Property(f, shape[1].name), isEmail);
        assert CheckPasses(shape[1].kind.checks[0], Property(f, "email").s, isEmail);
        assert FieldValid(shape[2].kind, Property(f, shape[2].name), isEmail);
        assert CheckPasses(shape[2].kind.checks[0], Property(f, "password").s, isEmail);
        assert FieldValid(shape[3].kind, Property(f, shape[3].name), isEmail);
        assert CheckPasses(shape[3].kind.checks[0], Property(f, "confirmPassword").s, isEmail);
      }
    }
  }

  /** Whatever sign-up accepts has `password == confirmPassword`. */
  lemma AcceptedPasswordsMatch(input: Value, isEmail: string -> bool)
    requires SafeParse(SignUpSchema, input, isEmail).Ok?
    ensures input.Object? && Property(input.fields, "password").Str?
    ensures Property(input.fields, "password") == Property(input.fields, "confirmPassword")
  {
    SignUpAccepts(input, isEmail);
  }

  /** The four sign-up fields as the object `safeParse` receives. */
  function SignUpInput(username: string, email: string, password: string, confirmPassword: string): Value {
    Object(map["username" := Str(username), "email" := Str(email),
               "password" := Str(password), "confirmPassword" := Str(confirmPassword)])
  }

  /** With every field a string, different passwords are reported last, on `confirmPassword`. */
  lemma MismatchReportedLast(username: string, email: string, password: string, confirmPassword: string, isEmail: string -> bool)
    requires password != confirmPassword
    ensures var r := SafeParse(SignUpSchema, SignUpInput(username, email, password, confirmPassword), isEmail);
      r.Err? && r.error[|r.error| - 1] == Issue(["confirmPassword"], PasswordsDiffer)
  {
    var input := SignUpInput(username, email, password, confirmPassword);
    var f := input.fields;
    var shape := SignUpSchema.shape;
    forall i | 0 <= i < |shape| ensures FieldTyped(shape[i].kind, Property(f, shape[i].name)) {
    }
    assert Property(f, "password") != Property(f, "confirmPassword");
    RefinementPlacement(SignUpSchema, f, isEmail);
  }

  /**
   * The first message sign-up reports for a well-typed input with equal passwords:
   * the username, then the email, then the password.
   */
  lemma SignUpFirstIssue(username: string, email: string, password: string, isEmail: string -> bool)
    ensures var r := SafeParse(SignUpSchema, SignUpInput(username, email, password, password), isEmail);
      && (r.Ok? <==> Utf16Length(username) >= 2 && isEmail(email) && Utf16Length(password) >= 6)
      && (r.Err? ==>
            r.error[0].message ==
              (if Utf16Length(username) < 2 then UsernameTooShort
               else if !isEmail(email) then InvalidEmail
               else PasswordTooShort))
  {
    SignUpInputFields(username, email, password, password);
    FirstIssueOf(SignUpInput(username, email, password, password), username, email, password, isEmail);
  }

  /** Each field of SignUpInput holds its own argument. */
  lemma SignUpInputFields(username: string, email: string, password: string, confirmPassword: string)
    ensures var f := SignUpInput(username, email, password, confirmPassword).fields;
      && Property(f, "username") == Str(username) && Property(f, "email") == Str(email)
      && Property(f, "password") == Str(password) && Property(f, "confirmPassword") == Str(confirmPassword)
  {
  }

  /** SignUpFirstIssue for any object whose four fields hold those strings. */
  lemma FirstIssueOf(input: Value, username: string, email: string, password: string, isEmail: string -> bool)
    requires input.Object?
    requires Property(input.fields, "username") == Str(username) && Property(input.fields, "email") == Str(email)
    requires Property(input.fields, "password") == Str(password) && Property(input.fields, "confirmPassword") == Str(password)
    ensures var r := SafeParse(SignUpSchema, input, isEmail);
      && (r.Ok? <==> Utf16Length(username) >= 2 && isEmail(email) && Utf16Length(password) >= 6)
      && (r.Err? ==>
            r.error[0].message ==
              (if Utf16Length(username) < 2 then UsernameTooShort
               else if !isEmail(email) then InvalidEmail
               else PasswordTooShort))
  {
    var f := input.fields;
    var shape := SignUpSchema.shape;
    SignUpAccepts(input, isEmail);
    if Utf16Length(username) < 2 {
      assert !CheckPasses(shape[0].kind.checks[0], username, isEmail);
      SafeParseFirstIssue(SignUpSchema, f, isEmail, 0);
    } else if !isEmail(email) {
      assert CheckPasses(shape[0].kind.checks[0], username, isEmail);
      assert FieldValid(shape[0].kind, Property(f, shape[0].name), isEmail);
      assert !CheckPasses(shape[1].kind.checks[0], email, isEmail);
      SafeParseFirstIssue(SignUpSchema, f, isEmail, 1);
    } else if Utf16Length(password) < 6 {
      assert CheckPasses(shape[0].kind.checks[0], username, isEmail);
      assert FieldValid(shape[0].kind, Property(f, shape[0].name), isEmail);
      assert CheckPasses(shape[1].kind.checks[0], email, isEmail);
      assert FieldValid(shape[1].kind, Property(f, shape[1].name), isEmail);
      assert !CheckPasses(shape[2].kind.checks[0], password, isEmail);
      SafeParseFirstIssue(SignUpSchema, f, isEmail, 2);
    }
  }

  /**
   * A missing field gets its own `required_error`, and the refinement is not run:
   * the missing confirmation is the only issue, though it differs from the password.
   */
  lemma MissingConfirmPassword(username: string, email: string, password: string, isEmail: string -> bool)
    requires Utf16Length(username) >= 2 && isEmail(email) && Utf16Length(password) >= 6
    ensures SafeParse(SignUpSchema, Object(map["username" := Str(username), "email" := Str(email), "password" := Str(password)]), isEmail)
         == Err([Issue(["confirmPassword"], "Confirm Password is required")])
  {
    var f := map["username" := Str(username), "email" := Str(email), "password" := Str(password)];
    WithoutConfirmation(username, email, password);
    ConfirmationAbsent(f, username, email, password, isEmail);
  }

  /** The three entries of a form without a confirmation. */
  lemma WithoutConfirmation(username: string, email: string, password: string)
    ensures var f := map["username" := Str(username), "email" := Str(email), "password" := Str(password)];
      Property(f, "username") == Str(username) && Property(f, "email") == Str(email)
      && Property(f, "password") == Str(password) && "confirmPassword" !in f
  {
  }

  /** The same, for any fields holding valid entries and no confirmation. */
  lemma ConfirmationAbsent(f: map<string, Value>, username: string, email: string, password: string, isEmail: string -> bool)
    requires Utf16Length(username) >= 2 && isEmail(email) && Utf16Length(password) >= 6
    requires Property(f, "username") == Str(username) && Property(f, "email") == Str(email)
    requires Property(f, "password") == Str(password) && "confirmPassword" !in f
    ensures SafeParse(SignUpSchema, Object(f), isEmail) == Err([Issue(["confirmPassword"], "Confirm Password is required")])
  {
    var shape := SignUpSchema.shape;
    var issue := Issue(["confirmPassword"], "Confirm Password is required");
    assert CheckField(shape[0], Str(username), isEmail) == FieldResult([], false) by {
      assert CheckPasses(shape[0].kind.checks[0], username, isEmail);
    }
    assert CheckField(shape[1], Str(email), isEmail) == FieldResult([], false) by {
      assert CheckPasses(shape[1].kind.checks[0], email, isEmail);
    }
    assert CheckField(shape[2], Str(password), isEmail) == FieldResult([], false) by {
      assert CheckPasses(shape[2].kind.checks[0], password, isEmail);
    }
    assert CheckField(shape[3], Undefined, isEmail) == FieldResult([issue], true);
    FourFields(shape, f, isEmail);
    assert CheckShape(shape, f, isEmail) == FieldResult([issue], true);
  }
}
