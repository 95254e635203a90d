/** `CurrentUserMiddleware`: read the bearer token of the `Authorization`
    header, verify it, and record on the request who the caller is: left
    unassigned when there is no token, null when the token or its payload is
    unusable or names nobody, the user otherwise. The request always goes on
    to the next handler, exactly once. Token verification (signature, secret,
    expiry) is a parameter. */
module CurrentUser {
  import opened Http
  import opened Users
  import Text

  const BearerScheme := "Bearer"

  /** `extractTokenFromHeader(request)`: split the header on every space and
      take the second piece when the first is exactly `Bearer`. */
  function ExtractTokenFromHeader(authorization: Option<string>): (r: Option<string>)
    ensures authorization.None? ==> r.None?
    ensures r.Some? ==> ' ' !in r.value
    ensures r.Some? ==> |Text.Split(authorization.value, ' ')| >= 2 && Text.Split(authorization.value, ' ')[0] == BearerScheme
  {
    match authorization
    case None => None
    case Some(header) =>
      var parts := Text.Split(header, ' ');
      if parts[0] == BearerScheme && |parts| >= 2 then Some(parts[1]) else None
  }

  /** A header `Bearer <token>`, possibly followed by more space-separated
      words, yields the token. */
  lemma ExtractBearerToken(token: string, rest: string)
    requires ' ' !in token
    requires rest == [] || rest[0] == ' '
    ensures ExtractTokenFromHeader(Some(BearerScheme + " " + token + rest)) == Some(token)
  {
    assert BearerScheme + " " + token + rest == BearerScheme + [' '] + (token + rest);
    Text.SplitAfterField(BearerScheme, ' ', token + rest);
    Text.SplitFirstField(token, ' ', rest);
  }

  /** Conversely, every token extracted comes from a header of that shape. */
  lemma ExtractedTokenShape(header: string) returns (rest: string)
    requires ExtractTokenFromHeader(Some(header)).Some?
    ensures var token := ExtractTokenFromHeader(Some(header)).value;
      header == BearerScheme + " " + token + rest && (rest == [] || rest[0] == ' ')
  {
    rest := Text.SplitTwoFields(header, ' ');
  }

  /** The scheme is compared case-sensitively: `bearer <token>` yields nothing. */
  lemma LowerCaseSchemeRejected(token: string)
    ensures ExtractTokenFromHeader(Some("bearer " + token)).None?
  {
    assert "bearer " + token == "bearer" + [' '] + token;
    Text.SplitAfterField("bearer", ' ', token);
  }

  /** A header holding only the scheme yields nothing. */
  lemma SchemeAloneRejected()
    ensures ExtractTokenFromHeader(Some(BearerScheme)).None?
  {
    Text.SplitWithoutSeparator(BearerScheme, ' ');
  }

  /** What `jwtService.verifyAsync` does with a token: reject it (it throws),
      or return its payload, whose `email` may be missing. */
  datatype VerifyResult = Rejected | Verified(email: Option<string>)

  /** The state of `req.currentUser`. */
  datatype CurrentUserSlot = Unassigned | NullUser | Assigned(doc: UserDoc)

  /** The fields of an Express request the middleware reads and writes;
      `nextCalls` counts the calls of `next()` made for it. */
  class Request {
    const authorization: Option<string>
    var currentUser: CurrentUserSlot
    var nextCalls: nat

    constructor (authorization: Option<string>)
      ensures this.authorization == authorization && currentUser == Unassigned && nextCalls == 0
    {
      this.authorization := authorization;
      currentUser := Unassigned;
      nextCalls := 0;
    }
  }

  /** `next()`: hand the request on. */
  method Next(req: Request)
    modifies req`nextCalls
    ensures req.nextCalls == old(req.nextCalls) + 1
  {
    req.nextCalls := req.nextCalls + 1;
  }

  class CurrentUserMiddleware {
    const usersService: UsersService
    /** `jwtService.verifyAsync` with the configured secret. */
    const verifyToken: string -> VerifyResult

    constructor (usersService: UsersService, verifyToken: string -> VerifyResult)
      ensures this.usersService == usersService && this.verifyToken == verifyToken
    {
      this.usersService := usersService;
      this.verifyToken := verifyToken;
    }

    /** `use(req, res, next)`; `lookup` is the outcome of the
        `findOneByEmail` query, when one is made. */
    method Use(req: Request, lookup: StoreOutcome)
      requires usersService.Valid()
      modifies req
      ensures req.nextCalls == old(req.nextCalls) + 1
      // no token, or an empty one: the request is left as it was
      ensures var token := ExtractTokenFromHeader(req.authorization);
        token.None? || token.value == "" ==> req.currentUser == old(req.currentUser)
      // a token verification rejects: null
      ensures var token := ExtractTokenFromHeader(req.authorization);
        token.Some? && token.value != "" && verifyToken(token.value).Rejected? ==> req.currentUser == NullUser
      // a payload with no email, or an empty one: null, and no lookup
      ensures var token := ExtractTokenFromHeader(req.authorization);
        && token.Some? && token.value != "" && verifyToken(token.value).Verified?
        && (verifyToken(token.value).email.None? || verifyToken(token.value).email.value == "")
        ==> req.currentUser == NullUser
      // an email: the user with that email, or null when there is none or the lookup fails
      ensures var token := ExtractTokenFromHeader(req.authorization);
        && token.Some? && token.value != "" && verifyToken(token.value).Verified?
        && verifyToken(token.value).email.Some? && verifyToken(token.value).email.value != ""
        ==> req.currentUser ==
              var found := FindOneByEmail(usersService.users, verifyToken(token.value).email.value);
              if lookup.Succeeds? && found.Some? then Assigned(found.value) else NullUser
    {
      var token := ExtractTokenFromHeader(req.authorization);
      if token.Some? && token.value != "" {
        var payload := verifyToken(token.value);
        if payload.Rejected? {
          req.currentUser := NullUser;
        } else if payload.email.None? || payload.email.value == "" {
          req.currentUser := NullUser;
          Next(req);
          return;
        } else if lookup.Fails? {
          req.currentUser := NullUser;
        } else {
          var user := FindOneByEmail(usersService.users, payload.email.value);
          req.currentUser := if user.Some? then Assigned(user.value) else NullUser;
        }
      }
      Next(req);
    }
  }
}
