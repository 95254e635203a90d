/** `AuthService`: the password record `hex(salt) + "." + hex(key)`, its
    verification by split-and-compare, the token payload, and the sign-in and
    sign-up flows with the exception each failure raises. The key-derivation
    function (scrypt), the random salt and the token signature are not
    computed here: the KDF is a parameter, the salt an input, and a token is
    the payload it signs. */
module Auth {
  import opened Http
  import opened Users
  import Text

  newtype byte = x: int | 0 <= x < 256

  /** `randomBytes(8)`. */
  const SaltLength := 8
  /** The key length passed to scrypt. */
  const KeyLength := 32

  const HexDigits := "0123456789abcdef"

  /** Node's `buffer.toString("hex")`: two lower-case hex digits per byte. */
  function Hex(bytes: seq<byte>): (r: string)
    ensures |r| == 2 * |bytes|
    ensures forall i :: 0 <= i < |r| ==> r[i] in HexDigits
  {
    if bytes == [] then []
    else [HexDigits[bytes[0] as int / 16], HexDigits[bytes[0] as int % 16]] + Hex(bytes[1..])
  }

  lemma HexDigitsDistinct(i: int, j: int)
    requires 0 <= i < 16 && 0 <= j < 16
    requires HexDigits[i] == HexDigits[j]
    ensures i == j
  {
  }

  /** Hex encoding loses nothing: different bytes give different strings. */
  lemma {:induction false} HexInjective(a: seq<byte>, b: seq<byte>)
    requires Hex(a) == Hex(b)
    ensures a == b
    decreases |a|
  {
    if a != [] {
      var x, y := a[0] as int, b[0] as int;
      assert Hex(a)[0] == HexDigits[x / 16] && Hex(b)[0] == HexDigits[y / 16];
      assert Hex(a)[1] == HexDigits[x % 16] && Hex(b)[1] == HexDigits[y % 16];
      HexDigitsDistinct(x / 16, y / 16);
      HexDigitsDistinct(x % 16, y % 16);
      assert Hex(a)[2..] == Hex(a[1..]) && Hex(b)[2..] == Hex(b[1..]);
      HexInjective(a[1..], b[1..]);
      assert a == [a[0]] + a[1..] && b == [b[0]] + b[1..];
    }
  }

  /** `scrypt(password, salt, 32)`, taken as given: a deterministic function of the password and the salt string. */
  type Kdf = (string, string) -> seq<byte>

  ghost predicate DerivesKeyLength(kdf: Kdf)
  {
    forall password, salt :: |kdf(password, salt)| == KeyLength
  }

  /** `hashPassword(password)` for the random bytes `salt`: the hex salt, a
      dot, and the hex key derived from the password and the hex salt. The
      record splits on `.` into exactly those two fields. */
  function HashPassword(password: string, salt: seq<byte>, kdf: Kdf): (r: string)
    requires |salt| == SaltLength
    ensures Text.Split(r, '.') == [Hex(salt), Hex(kdf(password, Hex(salt)))]
    ensures |r| == 2 * SaltLength + 1 + 2 * |kdf(password, Hex(salt))|
  {
    var saltHex := Hex(salt);
    var hashHex := Hex(kdf(password, saltHex));
    Text.SplitAfterField(saltHex, '.', hashHex);
    Text.SplitWithoutSeparator(hashHex, '.');
    saltHex + "." + hashHex
  }

  /** With scrypt's 32-byte key the record is 16 hex digits, one dot, and 64 hex digits. */
  lemma HashPasswordFormat(password: string, salt: seq<byte>, kdf: Kdf)
    requires |salt| == SaltLength
    requires DerivesKeyLength(kdf)
    ensures var r := HashPassword(password, salt, kdf);
      && |r| == 81 && r[16] == '.'
      && (forall i :: 0 <= i < 16 ==> r[i] in HexDigits)
      && (forall i :: 17 <= i < 81 ==> r[i] in HexDigits)
      && |Text.Split(r, '.')| == 2
  {
    var saltHex := Hex(salt);
    var hashHex := Hex(kdf(password, saltHex));
    var r := HashPassword(password, salt, kdf);
    assert r == saltHex + "." + hashHex;
    forall i | 17 <= i < 81 ensures r[i] in HexDigits {
      assert r[i] == hashHex[i - 17];
    }
  }

  /** `verifyPassword(password, stored)`: split the record on every `.`, take
      the first field as the salt and the second as the expected hash (a
      record without a `.` has none, and fails), ignore any further field. */
  function VerifyPassword(password: string, stored: string, kdf: Kdf): bool
  {
    var fields := Text.Split(stored, '.');
    |fields| >= 2 && fields[1] == Hex(kdf(password, fields[0]))
  }

  /** What verification compares: the second field against the key derived
      from the first; whatever follows a second `.` plays no part. */
  lemma VerifyComparesSecondField(password: string, salt: string, hash: string, rest: string, kdf: Kdf)
    requires '.' !in salt && '.' !in hash
    requires rest == [] || rest[0] == '.'
    ensures VerifyPassword(password, salt + "." + hash + rest, kdf) <==> hash == Hex(kdf(password, salt))
  {
    assert salt + "." + hash + rest == salt + ['.'] + (hash + rest);
    Text.SplitAfterField(salt, '.', hash + rest);
    Text.SplitFirstField(hash, '.', rest);
  }

  /** A record holding no `.` never verifies. */
  lemma VerifyNeedsSeparator(password: string, stored: string, kdf: Kdf)
    requires '.' !in stored
    ensures !VerifyPassword(password, stored, kdf)
  {
    Text.SplitWithoutSeparator(stored, '.');
  }

  /** Round trip: a password verifies against its own record. */
  lemma HashThenVerify(password: string, salt: seq<byte>, kdf: Kdf)
    requires |salt| == SaltLength
    ensures VerifyPassword(password, HashPassword(password, salt, kdf), kdf)
  {
  }

  /** Another password verifies against the record exactly when the KDF
      derives the same key from it and the same salt. */
  lemma VerifyOtherPassword(password: string, other: string, salt: seq<byte>, kdf: Kdf)
    requires |salt| == SaltLength
    ensures VerifyPassword(other, HashPassword(password, salt, kdf), kdf)
            <==> kdf(other, Hex(salt)) == kdf(password, Hex(salt))
  {
    if VerifyPassword(other, HashPassword(password, salt, kdf), kdf) {
      HexInjective(kdf(password, Hex(salt)), kdf(other, Hex(salt)));
    }
  }

  /** The payload `generateJwtToken` signs. */
  datatype JwtPayload = JwtPayload(email: string, sub: UserId)

  /** `{ access_token }`: the signed token, represented by the payload it signs. */
  datatype AccessToken = AccessToken(payload: JwtPayload)

  /** `generateJwtToken(user)`: sign `{ email: user.email, sub: user._id }`. */
  function GenerateJwtToken(doc: UserDoc): AccessToken
  {
    AccessToken(JwtPayload(doc.user.email, doc.id))
  }

  /** `signIn(email, password)`: an unknown email is a bad request, decided
      before any password check; a wrong password is unauthorized; otherwise
      a token for the user with that email. */
  function SignIn(users: map<UserId, User>, kdf: Kdf, email: string, password: string): (r: Result<AccessToken>)
    requires EmailsUnique(users)
    ensures !EmailTaken(users, email) ==> r == Err(BadRequest("Invalid credentials"))
    ensures EmailTaken(users, email) && r.Err? ==> r == Err(Unauthorized("Invalid credentials"))
    ensures r.Ok? <==> exists id :: id in users && users[id].email == email && VerifyPassword(password, users[id].password, kdf)
    ensures r.Ok? ==> exists id :: id in users && users[id].email == email && r.value == AccessToken(JwtPayload(email, id))
  {
    match FindOneByEmail(users, email)
    case None => Err(BadRequest("Invalid credentials"))
    case Some(doc) =>
      if !VerifyPassword(password, doc.user.password, kdf) then Err(Unauthorized("Invalid credentials"))
      else Ok(GenerateJwtToken(doc))
  }

  /** A user stored the way sign-up stores one signs in with the same
      password and gets a token naming that user. */
  lemma SignedUpUserCanSignIn(users: map<UserId, User>, kdf: Kdf, newId: UserId, name: string, email: string, password: string, salt: seq<byte>)
    requires EmailsUnique(users) && !EmailTaken(users, email) && newId !in users
    requires |salt| == SaltLength
    ensures var users' := users[newId := User(name, email, HashPassword(password, salt, kdf), [])];
      EmailsUnique(users') && SignIn(users', kdf, email, password) == Ok(AccessToken(JwtPayload(email, newId)))
  {
    var users' := users[newId := User(name, email, HashPassword(password, salt, kdf), [])];
    HashThenVerify(password, salt, kdf);
    forall id | id in users' && users'[id].email == email ensures id == newId {
    }
    assert EmailsUnique(users');
    assert users'[newId].email == email;
    var found := FindOneByEmail(users', email);
    assert found.Some? && found.value.id == newId;
  }

  /** The request body of sign-up, whose `password` field `signUp` overwrites in place. */
  class SignUpBody {
    var name: string
    var email: string
    var password: string

    constructor (name: string, email: string, password: string)
      ensures this.name == name && this.email == email && this.password == password
    {
      this.name := name;
      this.email := email;
      this.password := password;
    }
  }

  class AuthService {
    const usersService: UsersService
    const kdf: Kdf

    constructor (usersService: UsersService, kdf: Kdf)
      ensures this.usersService == usersService && this.kdf == kdf
    {
      this.usersService := usersService;
      this.kdf := kdf;
    }

    /** `signUp(user)`: an email already in use is a bad request and touches
        nothing. Otherwise the body's password is replaced by its record, the
        user is created (a failure propagates as `create` translates it), and
        the answer is a token over the new user's email and id. */
    method SignUp(body: SignUpBody, salt: seq<byte>, newId: UserId, create: StoreOutcome) returns (r: Result<AccessToken>)
      requires usersService.Valid()
      requires |salt| == SaltLength
      requires newId !in usersService.users
      modifies body, usersService
      ensures usersService.Valid()
      ensures body.name == old(body.name) && body.email == old(body.email)
      ensures EmailTaken(old(usersService.users), old(body.email)) ==>
        && r == Err(BadRequest("Email already in use"))
        && usersService.users == old(usersService.users)
        && body.password == old(body.password)
      ensures !EmailTaken(old(usersService.users), old(body.email)) ==>
        body.password == HashPassword(old(body.password), salt, kdf)
      ensures !EmailTaken(old(usersService.users), old(body.email)) && create.Succeeds? ==>
        && r == Ok(AccessToken(JwtPayload(body.email, newId)))
        && usersService.users == old(usersService.users)[newId := User(body.name, body.email, body.password, [])]
      ensures !EmailTaken(old(usersService.users), old(body.email)) && create.Fails? ==>
        && r == Err(TranslateCreateError(create.error))
        && usersService.users == old(usersService.users)
    {
      var existing := FindOneByEmail(usersService.users, body.email);
      if existing.Some? {
        return Err(BadRequest("Email already in use"));
      }
      body.password := HashPassword(body.password, salt, kdf);
      var created := usersService.Create(NewUser(body.name, body.email, body.password), newId, create);
      if created.Err? {
        return Err(created.error);
      }
      r := Ok(GenerateJwtToken(created.value));
    }
  }
}
