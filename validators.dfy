/** The class-validator decorators the DTOs declare, read as predicates on one
    property of a request body, and a DTO as the list of its decorated
    properties. A body passes when every property meets every one of its
    constraints, an `@IsOptional()` property that is absent or null being
    exempt from all of them. E-mail syntax and the symbol set of
    `isStrongPassword` belong to validator.js and are parameters. */
module Validators {

  /** The value of one property of a JSON body. */
  datatype Field = Absent | Null | Str(s: string) | NotString

  /** validator.js's `isStrongPassword` options. */
  datatype StrengthOptions = StrengthOptions(minLength: nat, minLowercase: nat, minUppercase: nat, minNumbers: nat, minSymbols: nat)

  datatype Rule =
    | IsString
    | IsNotEmpty
    | MaxLength(max: nat)
    | MinLength(min: nat)
    | IsEmail
    | IsStrongPassword(options: StrengthOptions)

  /** A decorator and the message it reports when it fails. */
  datatype Constraint = Constraint(rule: Rule, message: string)

  /** A decorated DTO property. */
  datatype Property = Property(name: string, optional: bool, constraints: seq<Constraint>)

  /** The library predicates the model does not define. */
  datatype Library = Library(isEmail: string -> bool, isSymbol: char -> bool)

  /** A body as the validation pipe sees it; a property it lacks is absent. */
  type Body = map<string, Field>

  function FieldOf(body: Body, name: string): Field
  {
    if name in body then body[name] else Absent
  }

  predicate IsLower(c: char) { 'a' <= c <= 'z' }
  predicate IsUpper(c: char) { 'A' <= c <= 'Z' }
  predicate IsDigit(c: char) { '0' <= c <= '9' }

  /** How many characters of `s` satisfy `p`. */
  function CountIf(s: string, p: char -> bool): (n: nat)
    ensures n <= |s|
    ensures n == 0 <==> forall i :: 0 <= i < |s| ==> !p(s[i])
  {
    if s == [] then 0 else (if p(s[0]) then 1 else 0) + CountIf(s[1..], p)
  }

  lemma {:induction false} CountIfConcat(a: string, b: string, p: char -> bool)
    ensures CountIf(a + b, p) == CountIf(a, p) + CountIf(b, p)
    decreases |a|
  {
    if a == [] {
      assert a + b == b;
    } else {
      CountIfConcat(a[1..], b, p);
      assert (a + b)[0] == a[0] && (a + b)[1..] == a[1..] + b;
    }
  }

  /** Two positions holding characters of the class count twice. */
  lemma CountIfTwo(s: string, p: char -> bool, i: int, j: int)
    requires 0 <= i < j < |s| && p(s[i]) && p(s[j])
    ensures CountIf(s, p) >= 2
  {
    CountIfConcat(s[..j], s[j..], p);
    assert s[..j] + s[j..] == s;
    assert s[..j][i] == s[i] && s[j..][0] == s[j];
  }

  /** Characters of disjoint classes are counted apart: the four class
      counts of a string never add up to more than its length. */
  lemma {:induction false} ClassCountsBound(s: string, isSymbol: char -> bool)
    requires forall c :: isSymbol(c) ==> !IsLower(c) && !IsUpper(c) && !IsDigit(c)
    ensures CountIf(s, IsLower) + CountIf(s, IsUpper) + CountIf(s, IsDigit) + CountIf(s, isSymbol) <= |s|
    decreases |s|
  {
    if s != [] {
      ClassCountsBound(s[1..], isSymbol);
    }
  }

  /** validator.js `isStrongPassword` with the given thresholds. */
  predicate StrongPassword(s: string, o: StrengthOptions, isSymbol: char -> bool)
  {
    && |s| >= o.minLength
    && CountIf(s, IsLower) >= o.minLowercase
    && CountIf(s, IsUpper) >= o.minUppercase
    && CountIf(s, IsDigit) >= o.minNumbers
    && CountIf(s, isSymbol) >= o.minSymbols
  }

  /** Whether one decorator accepts a value. Every rule but `IsNotEmpty`
      requires a string; `IsNotEmpty` refuses only `""`, null and absence. */
  predicate Holds(rule: Rule, f: Field, lib: Library)
  {
    match rule
    case IsString => f.Str?
    case IsNotEmpty => !f.Absent? && !f.Null? && f != Str("")
    case MaxLength(max) => f.Str? && |f.s| <= max
    case MinLength(min) => f.Str? && |f.s| >= min
    case IsEmail => f.Str? && lib.isEmail(f.s)
    case IsStrongPassword(o) => f.Str? && StrongPassword(f.s, o, lib.isSymbol)
  }

  /** `@IsOptional()` skips every check of a property that is absent or null. */
  predicate Skipped(p: Property, f: Field)
  {
    p.optional && (f.Absent? || f.Null?)
  }

  predicate PropertyValid(p: Property, f: Field, lib: Library)
  {
    Skipped(p, f) || forall c :: c in p.constraints ==> Holds(c.rule, f, lib)
  }

  /** The body passes the DTO. */
  predicate Valid(dto: seq<Property>, body: Body, lib: Library)
  {
    forall i :: 0 <= i < |dto| ==> PropertyValid(dto[i], FieldOf(body, dto[i].name), lib)
  }

  /** The messages of the failing constraints of one property. */
  function PropertyErrors(p: Property, f: Field, lib: Library): (errs: set<string>)
    ensures errs == {} <==> PropertyValid(p, f, lib)
  {
    if Skipped(p, f) then {}
    else
      var errs := set c | c in p.constraints && !Holds(c.rule, f, lib) :: c.message;
      if !PropertyValid(p, f, lib) then
        var c :| c in p.constraints && !Holds(c.rule, f, lib);
        assert c.message in errs;
        errs
      else errs
  }

  /** The messages the validation pipe reports for a body; the body is
      refused with a bad request exactly when there is one. */
  function Errors(dto: seq<Property>, body: Body, lib: Library): (errs: set<string>)
    ensures errs == {} <==> Valid(dto, body, lib)
  {
    if dto == [] then {}
    else
      var errs := PropertyErrors(dto[0], FieldOf(body, dto[0].name), lib) + Errors(dto[1..], body, lib);
      assert errs == {} <==> Valid(dto, body, lib) by {
        if Valid(dto, body, lib) {
          assert Valid(dto[1..], body, lib) by {
            forall i | 0 <= i < |dto[1..]|
              ensures PropertyValid(dto[1..][i], FieldOf(body, dto[1..][i].name), lib)
            {
              assert dto[1..][i] == dto[i + 1];
            }
          }
        }
        if Valid(dto[1..], body, lib) && PropertyValid(dto[0], FieldOf(body, dto[0].name), lib) {
          forall i | 0 <= i < |dto|
            ensures PropertyValid(dto[i], FieldOf(body, dto[i].name), lib)
          {
            if i > 0 { assert dto[i] == dto[1..][i - 1]; }
          }
        }
      }
      errs
  }

  /** A DTO of three properties passes when each of them does. */
  lemma ValidThree(dto: seq<Property>, body: Body, lib: Library)
    requires |dto| == 3
    ensures Valid(dto, body, lib) <==>
      && PropertyValid(dto[0], FieldOf(body, dto[0].name), lib)
      && PropertyValid(dto[1], FieldOf(body, dto[1].name), lib)
      && PropertyValid(dto[2], FieldOf(body, dto[2].name), lib)
  {
  }

  /** A DTO of two properties passes when each of them does. */
  lemma ValidTwo(dto: seq<Property>, body: Body, lib: Library)
    requires |dto| == 2
    ensures Valid(dto, body, lib) <==>
      && PropertyValid(dto[0], FieldOf(body, dto[0].name), lib)
      && PropertyValid(dto[1], FieldOf(body, dto[1].name), lib)
  {
  }

  /** Properties the DTO does not declare play no part: the pipe strips them. */
  lemma ExtraPropertiesIgnored(dto: seq<Property>, body: Body, name: string, f: Field, lib: Library)
    requires forall i :: 0 <= i < |dto| ==> dto[i].name != name
    ensures Valid(dto, body[name := f], lib) <==> Valid(dto, body, lib)
  {
    forall i | 0 <= i < |dto|
      ensures FieldOf(body[name := f], dto[i].name) == FieldOf(body, dto[i].name)
    {
    }
  }
}
