/** `SignUpDto` and `SignInDto` as declared: bounds on the name, a required
    e-mail, and the same password-strength rule on both. */
module UserDtos {
  import opened Validators

  /** `{ minLowercase: 2, minUppercase: 1, minNumbers: 2, minSymbols: 1 }`
      over validator.js's default minimum length of 8. */
  const PasswordStrength := StrengthOptions(8, 2, 1, 2, 1)

  const SignUpDto: seq<Property> := [
    Property("name", false, [
      Constraint(IsString, "Name must be a string"),
      Constraint(IsNotEmpty, "Name is required"),
      Constraint(MaxLength(30), "Name must be less than 30 characters"),
      Constraint(MinLength(3), "Name must be at least 3 characters")]),
    Property("email", false, [
      Constraint(IsEmail, "Invalid email"),
      Constraint(IsNotEmpty, "Email is required")]),
    Property("password", false, [
      Constraint(IsString, "password must be a string"),
      Constraint(IsNotEmpty, "password should not be empty"),
      Constraint(MinLength(8), "Password must be at least 8 characters"),
      Constraint(IsStrongPassword(PasswordStrength), "Password is weak")])
  ]

  const SignInDto: seq<Property> := [
    Property("email", false, [
      Constraint(IsEmail, "Invalid email"),
      Constraint(IsNotEmpty, "Email is required")]),
    Property("password", false, [
      Constraint(IsString, "password must be a string"),
      Constraint(IsNotEmpty, "password should not be empty"),
      Constraint(MinLength(8), "Password does not meet the required security standards"),
      Constraint(IsStrongPassword(PasswordStrength), "Password does not meet the required security standards.")])
  ]

  /** The password rule both DTOs state: at least 8 characters, 2 lower-case
      letters, 1 upper-case letter, 2 digits and 1 symbol. */
  predicate AcceptablePassword(f: Field, isSymbol: char -> bool)
  {
    && f.Str? && |f.s| >= 8
    && CountIf(f.s, IsLower) >= 2 && CountIf(f.s, IsUpper) >= 1
    && CountIf(f.s, IsDigit) >= 2 && CountIf(f.s, isSymbol) >= 1
  }

  /** A required e-mail: a non-empty string the library takes for an address. */
  predicate AcceptableEmail(f: Field, isEmail: string -> bool)
  {
    f.Str? && f.s != "" && isEmail(f.s)
  }

  /** The password property passes exactly under the password rule. */
  lemma PasswordPropertyAccepts(p: Property, f: Field, lib: Library, weakMessage: string, shortMessage: string)
    requires p == Property("password", false, [
      Constraint(IsString, "password must be a string"),
      Constraint(IsNotEmpty, "password should not be empty"),
      Constraint(MinLength(8), shortMessage),
      Constraint(IsStrongPassword(PasswordStrength), weakMessage)])
    ensures PropertyValid(p, f, lib) <==> AcceptablePassword(f, lib.isSymbol)
  {
    if PropertyValid(p, f, lib) {
      assert Holds(p.constraints[3].rule, f, lib);
    }
  }

  lemma EmailPropertyAccepts(p: Property, f: Field, lib: Library)
    requires p == Property("email", false, [Constraint(IsEmail, "Invalid email"), Constraint(IsNotEmpty, "Email is required")])
    ensures PropertyValid(p, f, lib) <==> AcceptableEmail(f, lib.isEmail)
  {
    if PropertyValid(p, f, lib) {
      assert Holds(p.constraints[0].rule, f, lib);
      assert Holds(p.constraints[1].rule, f, lib);
    }
  }

  /** The name property passes exactly for a string of 3 to 30 characters. */
  lemma NamePropertyAccepts(f: Field, lib: Library)
    ensures PropertyValid(SignUpDto[0], f, lib) <==> f.Str? && 3 <= |f.s| <= 30
  {
    var p := SignUpDto[0];
    if PropertyValid(p, f, lib) {
      assert Holds(p.constraints[2].rule, f, lib);
      assert Holds(p.constraints[3].rule, f, lib);
    }
  }

  /** A sign-up body passes exactly when the name is a string of 3 to 30
      characters, the e-mail is acceptable and the password strong. */
  lemma SignUpDtoAccepts(body: Body, lib: Library)
    ensures Valid(SignUpDto, body, lib) <==>
      && FieldOf(body, "name").Str? && 3 <= |FieldOf(body, "name").s| <= 30
      && AcceptableEmail(FieldOf(body, "email"), lib.isEmail)
      && AcceptablePassword(FieldOf(body, "password"), lib.isSymbol)
  {
    ValidThree(SignUpDto, body, lib);
    NamePropertyAccepts(FieldOf(body, "name"), lib);
    EmailPropertyAccepts(SignUpDto[1], FieldOf(body, "email"), lib);
    PasswordPropertyAccepts(SignUpDto[2], FieldOf(body, "password"), lib, "Password is weak", "Password must be at least 8 characters");
  }

  /** A sign-in body passes exactly when the e-mail is acceptable and the
      password strong. */
  lemma SignInDtoAccepts(body: Body, lib: Library)
    ensures Valid(SignInDto, body, lib) <==>
      && AcceptableEmail(FieldOf(body, "email"), lib.isEmail)
      && AcceptablePassword(FieldOf(body, "password"), lib.isSymbol)
  {
    EmailPropertyAccepts(SignInDto[0], FieldOf(body, "email"), lib);
    PasswordPropertyAccepts(SignInDto[1], FieldOf(body, "password"), lib,
      "Password does not meet the required security standards.", "Password does not meet the required security standards");
    ValidTwo(SignInDto, body, lib);
  }

  /** Sign-in demands of a password exactly what sign-up does. */
  lemma SamePasswordRule(f: Field, lib: Library)
    ensures PropertyValid(SignInDto[1], f, lib) <==> PropertyValid(SignUpDto[2], f, lib)
  {
    PasswordPropertyAccepts(SignUpDto[2], f, lib, "Password is weak", "Password must be at least 8 characters");
    PasswordPropertyAccepts(SignInDto[1], f, lib,
      "Password does not meet the required security standards.", "Password does not meet the required security standards");
  }

  /** The documented example password is strong. */
  lemma ExamplePasswordAccepted(s: string, isSymbol: char -> bool)
    requires s == "Password123!"
    requires isSymbol('!')
    ensures AcceptablePassword(Str(s), isSymbol)
  {
    CountIfTwo(s, IsLower, 1, 2);
    CountIfTwo(s, IsDigit, 8, 9);
    assert IsUpper(s[0]) && isSymbol(s[11]);
  }

  /** A password with a single digit is weak, however long. */
  lemma OneDigitIsWeak(s: string, isSymbol: char -> bool)
    requires CountIf(s, IsDigit) == 1
    ensures !AcceptablePassword(Str(s), isSymbol)
  {
  }

  /** `Str0ng!!Pw` has a single digit, so it is weak. */
  lemma SingleDigitExampleRejected(s: string, isSymbol: char -> bool)
    requires s == "Str0ng!!Pw"
    ensures !AcceptablePassword(Str(s), isSymbol)
  {
    var head, digit, tail := s[..3], s[3..4], s[4..];
    assert s == head + digit + tail;
    CountIfConcat(head + digit, tail, IsDigit);
    CountIfConcat(head, digit, IsDigit);
    assert forall i :: 0 <= i < |head| ==> !IsDigit(head[i]);
    assert forall i :: 0 <= i < |tail| ==> !IsDigit(tail[i]);
    assert digit == ['0'];
    OneDigitIsWeak(s, isSymbol);
  }

  /** Where the symbols are none of letters and digits, six characters is
      the fewest the class counts alone ask for; the length rule of 8 is the
      stronger bound. */
  lemma StrongPasswordLength(f: Field, isSymbol: char -> bool)
    requires forall c :: isSymbol(c) ==> !IsLower(c) && !IsUpper(c) && !IsDigit(c)
    requires f.Str?
    requires CountIf(f.s, IsLower) >= 2 && CountIf(f.s, IsUpper) >= 1
    requires CountIf(f.s, IsDigit) >= 2 && CountIf(f.s, isSymbol) >= 1
    ensures |f.s| >= 6
  {
    ClassCountsBound(f.s, isSymbol);
  }
}
