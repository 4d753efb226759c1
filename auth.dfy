/** The authentication middleware (`server/src/middlewares/auth.js`): a request passes when
    its `Authorization` header starts with "Bearer " and the second space-separated word of
    the header verifies as a token; the request then carries the token's `{id, role}`. */
module Auth {
  import opened Base
  import opened Text
  import opened UserModel
  import opened Tokens

  const BearerPrefix: string := "Bearer "

  /** What `req.user` is set to. */
  datatype Principal = Principal(id: string, role: Role)

  /** What a middleware does with a request: hand it on with `next()`, or throw an
      `AppError` with a status. */
  datatype Flow = Next | Reject(status: int, message: string)

  /** A header that starts with "Bearer " splits on ' ' into "Bearer" and at least one more
      word, so `split(" ")[1]` exists. */
  lemma BearerWords(h: string)
    requires StartsWith(h, BearerPrefix)
    ensures |Split(h, ' ')| >= 2 && Split(h, ' ')[0] == "Bearer"
  {
    var rest := h[|BearerPrefix|..];
    assert h == "Bearer" + [' '] + rest;
    SplitAtSep("Bearer", rest, ' ');
  }

  /** `authHeader.split(" ")[1]`. */
  function BearerToken(h: string): (t: string)
    requires StartsWith(h, BearerPrefix)
    ensures ' ' !in t
  {
    BearerWords(h);
    Split(h, ' ')[1]
  }

  /** The decision `authMiddleware` takes on a header: 401 when it is missing or does not
      start with "Bearer ", 401 when its token does not verify, else the token's claims. */
  function Authenticate(header: Option<string>): (r: Outcome<Principal>)
    ensures r.Err? <==> !r.Ok?
    ensures r.Err? ==> r.status == 401
    ensures r.Ok? <==>
      header.Some? && StartsWith(header.value, BearerPrefix) && Verify(BearerToken(header.value)).Some?
    ensures r.Ok? ==>
      var d := Verify(BearerToken(header.value)).value;
      r.value == Principal(d.claims.id, d.claims.role)
    ensures (header.None? || !StartsWith(header.value, BearerPrefix)) <==>
      r == Err(401, "Authentication token required")
    ensures r.Err? && r.message == "Invalid or expired token" <==>
      header.Some? && StartsWith(header.value, BearerPrefix) && Verify(BearerToken(header.value)).None?
  {
    if header.None? || !StartsWith(header.value, BearerPrefix) then
      Err(401, "Authentication token required")
    else
      match Verify(BearerToken(header.value))
      case None => Err(401, "Invalid or expired token")
      case Some(d) => Ok(Principal(d.claims.id, d.claims.role))
  }

  /** The header the client sends, `Bearer <token>`, gets back the claims the token was
      signed with. */
  lemma AuthenticateSigned(c: Claims, expiresIn: string)
    ensures Authenticate(Some(BearerPrefix + Sign(c, expiresIn))) == Ok(Principal(c.id, c.role))
  {
    BearerTokenOf(Sign(c, expiresIn));
    VerifySign(c, expiresIn);
  }

  /** "Bearer " followed by one word yields that word as the token. */
  lemma BearerTokenOf(t: string)
    requires ' ' !in t
    ensures StartsWith(BearerPrefix + t, BearerPrefix)
    ensures BearerToken(BearerPrefix + t) == t
  {
    var h := BearerPrefix + t;
    assert h[..|BearerPrefix|] == BearerPrefix;
    assert h == "Bearer" + [' '] + t;
    SplitAtSep("Bearer", t, ' ');
    SplitOfPiece(t, ' ');
  }

  /** Only the second word counts: anything after a further space is ignored. */
  lemma TrailingWordsIgnored(t: string, rest: string)
    requires ' ' !in t
    ensures Authenticate(Some(BearerPrefix + t + [' '] + rest)) == Authenticate(Some(BearerPrefix + t))
  {
    var h1 := BearerPrefix + t + [' '] + rest;
    var h2 := BearerPrefix + t;
    assert h1 == "Bearer" + [' '] + (t + [' '] + rest);
    assert h2 == "Bearer" + [' '] + t;
    SplitAtSep("Bearer", t + [' '] + rest, ' ');
    SplitAtSep(t, rest, ' ');
    SplitAtSep("Bearer", t, ' ');
    SplitOfPiece(t, ' ');
    assert h1[..|BearerPrefix|] == BearerPrefix;
    assert h2[..|BearerPrefix|] == BearerPrefix;
  }

  /** An Express request, as far as the middlewares see it. */
  class Request {
    /** `req.headers.authorization`. */
    const authorization: Option<string>
    /** `req.user`, which the authentication middleware sets. */
    var user: Option<Principal>

    constructor (authorization: Option<string>)
      ensures this.authorization == authorization && user == None
    {
      this.authorization := authorization;
      user := None;
    }
  }

  /** `authMiddleware(req, res, next)`: on success `req.user` is the token's principal and the
      request goes on; otherwise `req.user` is untouched and the request is refused. */
  method AuthMiddleware(req: Request) returns (f: Flow)
    modifies req`user
    ensures Authenticate(req.authorization).Ok? ==>
      f == Next && req.user == Some(Authenticate(req.authorization).value)
    ensures !Authenticate(req.authorization).Ok? ==>
      f == Reject(401, Authenticate(req.authorization).message) && req.user == old(req.user)
  {
    var header := req.authorization;
    if header.None? || !StartsWith(header.value, BearerPrefix) {
      return Reject(401, "Authentication token required");
    }
    var token := BearerToken(header.value);
    var decoded := Verify(token);
    if decoded.None? {
      return Reject(401, "Invalid or expired token");
    }
    req.user := Some(Principal(decoded.value.claims.id, decoded.value.claims.role));
    f := Next;
  }
}
