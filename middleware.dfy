/** The two request-authentication middlewares of the backend:
    `authMiddleware` (users, signed with the user secret) and
    `workerMiddleware` (workers, signed with the worker secret). Each is a
    classifier from the request headers and the outcome of `jwt.verify` to
    either "attach this identity and call next()" or one (status, error)
    response. */
module Middleware {
  import opened Wrappers
  import opened JsText
  import Jwt

  /** The Bearer scheme of section 2.1 of RFC 6750, case-sensitive. */
  const BearerPrefix: string := "Bearer "

  /** Leeway in seconds passed to `jwt.verify` as `clockTolerance`. */
  const ClockTolerance: nat := 300

  /** A request header value: a string, or a list of strings. */
  datatype HeaderValue = Single(s: string) | Multiple(values: seq<string>)

  /** `!value` is false for a non-empty string and for any list. */
  predicate HeaderTruthy(v: HeaderValue)
  {
    match v
    case Single(s) => s != []
    case Multiple(_) => true
  }

  type Headers = map<string, HeaderValue>

  /** `JWT_SECRET` and `WORKER_JWT_SECRET`. */
  datatype Secrets = Secrets(user: string, worker: string)

  /** The `error` field of each rejection. */
  datatype ErrorKind =
    | MissingAuthHeader
    | InvalidAuthFormat
    | EmptyToken
    | InvalidTokenPayload
    | TokenExpired
    | InvalidToken
    | AuthenticationFailure
    | MissingWorkerAuthHeader
    | InvalidWorkerAuthFormat
    | InvalidWorkerToken
    | WorkerTokenExpired
    | InvalidWorkerCredentials

  /** What is attached to the request: `req.userId`, and `req.userRole`
      (`None` when it is not set, or set to an absent claim). */
  datatype Identity = Identity(userId: Jwt.Claim, userRole: Option<Jwt.Claim>)

  /** Either `next()` with the attached identity, or `res.status(status).json({error, ...})`. */
  datatype Decision = Next(identity: Identity) | Respond(status: int, error: ErrorKind)

  /** Every response `authMiddleware` can send. */
  const UserResponses: set<(int, ErrorKind)> :=
    {(401, MissingAuthHeader), (401, InvalidAuthFormat), (401, EmptyToken),
     (403, InvalidTokenPayload), (403, TokenExpired), (403, InvalidToken),
     (500, AuthenticationFailure)}

  /** Every response `workerMiddleware` can send. */
  const WorkerResponses: set<(int, ErrorKind)> :=
    {(401, MissingWorkerAuthHeader), (401, InvalidWorkerAuthFormat),
     (403, InvalidWorkerToken), (403, WorkerTokenExpired), (403, InvalidWorkerCredentials)}

  predicate Present(h: Headers, name: string)
  {
    name in h && HeaderTruthy(h[name])
  }

  /** `req.headers["authorization"] || req.headers["Authorization"]`, with
      `None` for a falsy result. */
  function AuthorizationHeader(h: Headers): (r: Option<HeaderValue>)
    ensures r.Some? ==> HeaderTruthy(r.value)
    ensures r.None? <==> !Present(h, "authorization") && !Present(h, "Authorization")
  {
    if Present(h, "authorization") then Some(h["authorization"])
    else if Present(h, "Authorization") then Some(h["Authorization"])
    else None
  }

  /** `authHeader.split(" ")[1].trim()` on a header that starts with the
      Bearer prefix: the text after the prefix up to the next space, trimmed. */
  function BearerToken(header: string): (token: string)
    requires StartsWith(header, BearerPrefix)
    ensures token == Trim(Split(header[|BearerPrefix|..], ' ')[0])
    ensures ' ' !in token
  {
    assert header == "Bearer" + [' '] + header[|BearerPrefix|..];
    SplitAfterField("Bearer", ' ', header[|BearerPrefix|..]);
    TrimKeepsOut(Split(header[|BearerPrefix|..], ' ')[0], ' ');
    Trim(Split(header, ' ')[1])
  }

  /** The token a well-formed Bearer header presents, whichever middleware
      reads it: there is one exactly when the header is a single string
      starting with the prefix, and it has no space and no whitespace at
      either end. */
  function PresentedToken(h: Headers): (r: Option<string>)
    ensures r.Some? <==> (AuthorizationHeader(h).Some? && AuthorizationHeader(h).value.Single?
                          && StartsWith(AuthorizationHeader(h).value.s, BearerPrefix))
    ensures r.Some? ==> ' ' !in r.value
    ensures r.Some? && r.value != [] ==> !IsWhitespace(r.value[0]) && !IsWhitespace(r.value[|r.value| - 1])
  {
    match AuthorizationHeader(h)
    case None => None
    case Some(v) =>
      if v.Single? && StartsWith(v.s, BearerPrefix) then Some(BearerToken(v.s)) else None
  }

  /** The checks `authMiddleware` makes before `jwt.verify`, in order:
      missing header, wrong scheme, empty token. */
  function UserPrecheck(h: Headers): (r: Result<string, ErrorKind>)
    ensures r.Ok? <==> PresentedToken(h).Some? && PresentedToken(h).value != []
    ensures r.Ok? ==> PresentedToken(h) == Some(r.value)
    ensures r.Err? ==> r.error in {MissingAuthHeader, InvalidAuthFormat, EmptyToken}
  {
    match AuthorizationHeader(h)
    case None => Err(MissingAuthHeader)
    case Some(v) =>
      if !v.Single? || !StartsWith(v.s, BearerPrefix) then Err(InvalidAuthFormat)
      else if BearerToken(v.s) == [] then Err(EmptyToken)
      else Ok(BearerToken(v.s))
  }

  /** A verified outcome with a truthy `userId` in an object payload is what
      either middleware lets through. */
  predicate AcceptedOutcome(outcome: Jwt.VerifyOutcome)
  {
    outcome.Verified? && outcome.payload.Object? && outcome.payload.userId.Some?
    && Jwt.Truthy(outcome.payload.userId.value)
  }

  /** How `authMiddleware` treats what `jwt.verify` returned or threw. The
      expiry check comes first, since `TokenExpiredError` is itself a
      `JsonWebTokenError`. */
  function UserVerdict(outcome: Jwt.VerifyOutcome): (d: Decision)
    ensures d.Next? <==> AcceptedOutcome(outcome)
    ensures d.Next? ==> d.identity == Identity(outcome.payload.userId.value, outcome.payload.role)
    ensures outcome.Verified? && !AcceptedOutcome(outcome) ==> d == Respond(403, InvalidTokenPayload)
    ensures d.Respond? ==> (d.status, d.error) in UserResponses && d.status != 401
  {
    match outcome
    case Verified(p) =>
      if p.Object? && p.userId.Some? && Jwt.Truthy(p.userId.value)
      then Next(Identity(p.userId.value, p.role))
      else Respond(403, InvalidTokenPayload)
    case Thrown(e) =>
      if e.TokenExpiredError? then Respond(403, TokenExpired)
      else if Jwt.IsJsonWebTokenError(e) then Respond(403, InvalidToken)
      else Respond(500, AuthenticationFailure)
  }

  /** `authMiddleware`: verification uses only the user secret. */
  function AuthMiddleware(h: Headers, secrets: Secrets, verify: Jwt.Verifier): (d: Decision)
    ensures d.Respond? ==> (d.status, d.error) in UserResponses
    ensures (d.Respond? && d.status == 401) <==> UserPrecheck(h).Err?
  {
    match UserPrecheck(h)
    case Err(kind) => Respond(401, kind)
    case Ok(token) => UserVerdict(verify(token, secrets.user, ClockTolerance))
  }

  /** The checks `workerMiddleware` makes before `jwt.verify`: missing header
      and wrong scheme only; an empty token goes on to verification. */
  function WorkerPrecheck(h: Headers): (r: Result<string, ErrorKind>)
    ensures r.Ok? <==> PresentedToken(h).Some?
    ensures r.Ok? ==> PresentedToken(h) == Some(r.value)
    ensures r.Err? ==> r.error in {MissingWorkerAuthHeader, InvalidWorkerAuthFormat}
  {
    match AuthorizationHeader(h)
    case None => Err(MissingWorkerAuthHeader)
    case Some(v) =>
      if !v.Single? || !StartsWith(v.s, BearerPrefix) then Err(InvalidWorkerAuthFormat)
      else Ok(BearerToken(v.s))
  }

  /** How `workerMiddleware` treats what `jwt.verify` returned or threw:
      every failure but expiry is invalid credentials, and `userRole` is
      never set. */
  function WorkerVerdict(outcome: Jwt.VerifyOutcome): (d: Decision)
    ensures d.Next? <==> AcceptedOutcome(outcome)
    ensures d.Next? ==> d.identity == Identity(outcome.payload.userId.value, None)
    ensures outcome.Verified? && !AcceptedOutcome(outcome) ==> d == Respond(403, InvalidWorkerToken)
    ensures d.Respond? ==> (d.status, d.error) in WorkerResponses && d.status == 403
  {
    match outcome
    case Verified(p) =>
      if p.Object? && p.userId.Some? && Jwt.Truthy(p.userId.value)
      then Next(Identity(p.userId.value, None))
      else Respond(403, InvalidWorkerToken)
    case Thrown(e) =>
      if e.TokenExpiredError? then Respond(403, WorkerTokenExpired)
      else Respond(403, InvalidWorkerCredentials)
  }

  /** `workerMiddleware`: verification uses only the worker secret. */
  function WorkerMiddleware(h: Headers, secrets: Secrets, verify: Jwt.Verifier): (d: Decision)
    ensures d.Respond? ==> (d.status, d.error) in WorkerResponses && d.status != 500
    ensures (d.Respond? && d.status == 401) <==> PresentedToken(h).None?
  {
    match WorkerPrecheck(h)
    case Err(kind) => Respond(401, kind)
    case Ok(token) => WorkerVerdict(verify(token, secrets.worker, ClockTolerance))
  }

  // ----- Token extraction -----

  /** The token is the first space-separated field after the prefix, trimmed;
      whatever follows a further space is ignored. */
  lemma {:induction false} BearerTokenOfField(field: string, rest: string)
    requires ' ' !in field
    ensures StartsWith(BearerPrefix + field, BearerPrefix)
    ensures StartsWith(BearerPrefix + field + [' '] + rest, BearerPrefix)
    ensures BearerToken(BearerPrefix + field) == Trim(field)
    ensures BearerToken(BearerPrefix + field + [' '] + rest) == Trim(field)
  {
    var h1 := BearerPrefix + field;
    var h2 := BearerPrefix + field + [' '] + rest;
    assert h1[..|BearerPrefix|] == BearerPrefix && h1[|BearerPrefix|..] == field;
    assert h2[..|BearerPrefix|] == BearerPrefix && h2[|BearerPrefix|..] == field + [' '] + rest;
    SplitNoSeparator(field, ' ');
    SplitAfterField(field, ' ', rest);
  }

  /** When nothing, or a second space, follows the prefix (`"Bearer "`,
      `"Bearer  x"`), the token is empty. */
  lemma EmptyBearerTokens(header: string)
    requires StartsWith(header, BearerPrefix)
    requires |header| == |BearerPrefix| || header[|BearerPrefix|] == ' '
    ensures BearerToken(header) == []
  {
    var after := header[|BearerPrefix|..];
    var e: string := [];
    assert Trim(e) == e;
    if after != [] {
      assert after == e + [' '] + after[1..];
      SplitAfterField(e, ' ', after[1..]);
    }
  }

  /** A token without whitespace comes back unchanged from the header
      `"Bearer " + token`. */
  lemma BearerRoundTrip(token: string)
    requires forall k :: 0 <= k < |token| ==> !IsWhitespace(token[k])
    ensures StartsWith(BearerPrefix + token, BearerPrefix)
    ensures BearerToken(BearerPrefix + token) == token
  {
    assert IsWhitespace(' ');
    BearerTokenOfField(token, []);
    TrimNoWhitespace(token);
  }

  // ----- authMiddleware -----

  /** Each 401 of `authMiddleware` and the condition that produces it, in
      check order. */
  lemma UserUnauthorizedCauses(h: Headers, secrets: Secrets, verify: Jwt.Verifier)
    ensures AuthMiddleware(h, secrets, verify) == Respond(401, MissingAuthHeader)
      <==> !Present(h, "authorization") && !Present(h, "Authorization")
    ensures AuthMiddleware(h, secrets, verify) == Respond(401, InvalidAuthFormat)
      <==> AuthorizationHeader(h).Some? && PresentedToken(h).None?
    ensures AuthMiddleware(h, secrets, verify) == Respond(401, EmptyToken)
      <==> PresentedToken(h) == Some([])
  {
  }

  /** Every 401, of either middleware, is decided before verification: it
      is the same whatever the verifier would have answered. */
  lemma UnauthorizedBeforeVerify(h: Headers, secrets: Secrets, verify: Jwt.Verifier, other: Jwt.Verifier)
    ensures UserPrecheck(h).Err? ==> AuthMiddleware(h, secrets, other) == AuthMiddleware(h, secrets, verify)
    ensures PresentedToken(h).None? ==> WorkerMiddleware(h, secrets, other) == WorkerMiddleware(h, secrets, verify)
  {
  }

  /** `authMiddleware` calls `next()` exactly when the token passes the checks,
      verifies under the user secret with leeway 300, and its payload is an
      object with a truthy `userId`; it then attaches `userId` and `role`.
      Any other verified payload is refused as an invalid payload. */
  lemma UserAcceptance(h: Headers, secrets: Secrets, verify: Jwt.Verifier)
    ensures AuthMiddleware(h, secrets, verify).Next? <==>
      PresentedToken(h).Some? && PresentedToken(h).value != []
      && AcceptedOutcome(verify(PresentedToken(h).value, secrets.user, ClockTolerance))
    ensures AuthMiddleware(h, secrets, verify).Next? ==>
      var p := verify(PresentedToken(h).value, secrets.user, ClockTolerance).payload;
      AuthMiddleware(h, secrets, verify).identity == Identity(p.userId.value, p.role)
    ensures PresentedToken(h).Some? && PresentedToken(h).value != [] ==>
      var r := verify(PresentedToken(h).value, secrets.user, ClockTolerance);
      r.Verified? && !AcceptedOutcome(r) ==> AuthMiddleware(h, secrets, verify) == Respond(403, InvalidTokenPayload)
  {
    match UserPrecheck(h)
    case Err(_) =>
    case Ok(token) =>
      assert AuthMiddleware(h, secrets, verify) == UserVerdict(verify(token, secrets.user, ClockTolerance));
  }

  /** How thrown errors map: expiry is checked before the generic JWT error
      it is a case of; the user middleware answers 500 only for an error that
      is not a JWT error, the worker middleware never does. */
  lemma ErrorMapping(e: Jwt.JwtError)
    ensures Jwt.IsJsonWebTokenError(Jwt.TokenExpiredError)
    ensures UserVerdict(Jwt.Thrown(e)) == Respond(403, TokenExpired) <==> e.TokenExpiredError?
    ensures UserVerdict(Jwt.Thrown(e)) == Respond(403, InvalidToken) <==> e.NotBeforeError? || e.JsonWebTokenError?
    ensures UserVerdict(Jwt.Thrown(e)) == Respond(500, AuthenticationFailure) <==> !Jwt.IsJsonWebTokenError(e)
    ensures WorkerVerdict(Jwt.Thrown(e)) == Respond(403, WorkerTokenExpired) <==> e.TokenExpiredError?
    ensures WorkerVerdict(Jwt.Thrown(e)) == Respond(403, InvalidWorkerCredentials) <==> !e.TokenExpiredError?
  {
  }

  // ----- workerMiddleware -----

  /** Each 401 of `workerMiddleware`; there is no empty-token check. */
  lemma WorkerUnauthorizedCauses(h: Headers, secrets: Secrets, verify: Jwt.Verifier)
    ensures WorkerMiddleware(h, secrets, verify) == Respond(401, MissingWorkerAuthHeader)
      <==> !Present(h, "authorization") && !Present(h, "Authorization")
    ensures WorkerMiddleware(h, secrets, verify) == Respond(401, InvalidWorkerAuthFormat)
      <==> AuthorizationHeader(h).Some? && PresentedToken(h).None?
  {
  }

  /** `workerMiddleware` calls `next()` exactly when the presented token
      verifies under the worker secret with leeway 300 and its payload has a
      truthy `userId`; it attaches `userId` and leaves `userRole` unset.
      Any other verified payload is refused as an invalid worker token. */
  lemma WorkerAcceptance(h: Headers, secrets: Secrets, verify: Jwt.Verifier)
    ensures WorkerMiddleware(h, secrets, verify).Next? <==>
      PresentedToken(h).Some? && AcceptedOutcome(verify(PresentedToken(h).value, secrets.worker, ClockTolerance))
    ensures WorkerMiddleware(h, secrets, verify).Next? ==>
      var p := verify(PresentedToken(h).value, secrets.worker, ClockTolerance).payload;
      WorkerMiddleware(h, secrets, verify).identity == Identity(p.userId.value, None)
    ensures PresentedToken(h).Some? ==>
      var r := verify(PresentedToken(h).value, secrets.worker, ClockTolerance);
      r.Verified? && !AcceptedOutcome(r) ==> WorkerMiddleware(h, secrets, verify) == Respond(403, InvalidWorkerToken)
  {
    match WorkerPrecheck(h)
    case Err(_) =>
    case Ok(token) =>
      assert WorkerMiddleware(h, secrets, verify) == WorkerVerdict(verify(token, secrets.worker, ClockTolerance));
  }

  /** Once a token is presented, `workerMiddleware` decides by what the
      verifier says about that token under the worker secret. */
  lemma WorkerVerifiesPresented(h: Headers, secrets: Secrets, verify: Jwt.Verifier)
    requires PresentedToken(h).Some?
    ensures WorkerMiddleware(h, secrets, verify)
      == WorkerVerdict(verify(PresentedToken(h).value, secrets.worker, ClockTolerance))
  {
    assert WorkerPrecheck(h) == Ok(PresentedToken(h).value);
  }

  /** An empty worker token is not rejected early: it is handed to the
      verifier, and any failure other than expiry is invalid credentials. */
  lemma WorkerEmptyToken(h: Headers, secrets: Secrets, verify: Jwt.Verifier)
    requires PresentedToken(h) == Some([])
    ensures AuthMiddleware(h, secrets, verify) == Respond(401, EmptyToken)
    ensures WorkerMiddleware(h, secrets, verify) == WorkerVerdict(verify([], secrets.worker, ClockTolerance))
    ensures verify([], secrets.worker, ClockTolerance).Thrown?
      && !verify([], secrets.worker, ClockTolerance).error.TokenExpiredError?
      ==> WorkerMiddleware(h, secrets, verify) == Respond(403, InvalidWorkerCredentials)
  {
    UserUnauthorizedCauses(h, secrets, verify);
    WorkerVerifiesPresented(h, secrets, verify);
  }

  // ----- Separate secrets -----

  /** With a sound verifier, whatever `authMiddleware` accepts was minted with
      the user secret, and the attached `userId` and `userRole` are the
      minted claims. */
  lemma UserAcceptsOnlyUserTokens(h: Headers, secrets: Secrets, verify: Jwt.Verifier, issued: map<string, Jwt.Minted>)
    requires Jwt.Unforgeable(verify, issued)
    requires AuthMiddleware(h, secrets, verify).Next?
    ensures PresentedToken(h).Some? && PresentedToken(h).value in issued
    ensures issued[PresentedToken(h).value].secret == secrets.user
    ensures issued[PresentedToken(h).value].payload
      == Jwt.Object(Some(AuthMiddleware(h, secrets, verify).identity.userId), AuthMiddleware(h, secrets, verify).identity.userRole)
  {
    UserAcceptance(h, secrets, verify);
  }

  /** With a sound verifier, whatever `workerMiddleware` accepts was minted
      with the worker secret, and the attached `userId` is the minted one. */
  lemma WorkerAcceptsOnlyWorkerTokens(h: Headers, secrets: Secrets, verify: Jwt.Verifier, issued: map<string, Jwt.Minted>)
    requires Jwt.Unforgeable(verify, issued)
    requires WorkerMiddleware(h, secrets, verify).Next?
    ensures PresentedToken(h).Some? && PresentedToken(h).value in issued
    ensures issued[PresentedToken(h).value].secret == secrets.worker
    ensures issued[PresentedToken(h).value].payload.Object?
      && issued[PresentedToken(h).value].payload.userId == Some(WorkerMiddleware(h, secrets, verify).identity.userId)
  {
    WorkerAcceptance(h, secrets, verify);
  }

  /** With distinct secrets and a sound verifier, a token minted with the
      worker secret never reaches `next()` through `authMiddleware`, and a
      token minted with the user secret never reaches it through
      `workerMiddleware`. */
  lemma SecretsSeparateRoles(h: Headers, secrets: Secrets, verify: Jwt.Verifier, issued: map<string, Jwt.Minted>)
    requires secrets.user != secrets.worker
    requires Jwt.Unforgeable(verify, issued)
    requires PresentedToken(h).Some? && PresentedToken(h).value in issued
    ensures issued[PresentedToken(h).value].secret == secrets.worker ==> !AuthMiddleware(h, secrets, verify).Next?
    ensures issued[PresentedToken(h).value].secret == secrets.user ==> !WorkerMiddleware(h, secrets, verify).Next?
  {
    if AuthMiddleware(h, secrets, verify).Next? {
      UserAcceptsOnlyUserTokens(h, secrets, verify, issued);
    }
    if WorkerMiddleware(h, secrets, verify).Next? {
      WorkerAcceptsOnlyWorkerTokens(h, secrets, verify, issued);
    }
  }

  /** Against the reference verifier, an empty worker token (never minted) is
      rejected with 403 invalid credentials. */
  lemma WorkerEmptyTokenRejected(h: Headers, secrets: Secrets, issued: map<string, Jwt.Minted>, now: int)
    requires PresentedToken(h) == Some([])
    requires [] !in issued
    ensures WorkerMiddleware(h, secrets, Jwt.ReferenceVerifier(issued, now)) == Respond(403, InvalidWorkerCredentials)
  {
  }
}
