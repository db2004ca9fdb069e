/** JSON Web Tokens (RFC 7519) as the middlewares see them: `jwt.verify`
    is an oracle. A minted token is a record carrying the secret it was
    signed with; a verifier is sound when it accepts a token string only
    under the secret the token was minted with. */
module Jwt {
  import opened Wrappers

  /** A JSON claim value, with JavaScript truthiness. */
  datatype Claim = Str(s: string) | Num(n: int) | Bool(b: bool) | Null

  predicate Truthy(c: Claim)
  {
    match c
    case Str(s) => s != []
    case Num(n) => n != 0
    case Bool(b) => b
    case Null => false
  }

  /** What `jwt.verify` returns on success: a string payload, or an object
      payload of which the middlewares read `userId` and `role`. */
  datatype Payload =
    | Text(text: string)
    | Object(userId: Option<Claim>, role: Option<Claim>)

  /** The errors `jwt.verify` throws. `TokenExpiredError` and
      `NotBeforeError` are subclasses of `JsonWebTokenError`; anything else
      is some other exception. */
  datatype JwtError =
    | TokenExpiredError
    | NotBeforeError
    | JsonWebTokenError
    | OtherError

  predicate IsJsonWebTokenError(e: JwtError)
  {
    !e.OtherError?
  }

  datatype VerifyOutcome = Verified(payload: Payload) | Thrown(error: JwtError)

  /** `jwt.verify(token, secret, { clockTolerance })`, with the clock fixed. */
  type Verifier = (string, string, nat) -> VerifyOutcome

  /** A minted token: its payload, the secret it was signed with, and its
      `exp` and `nbf` claims in seconds. */
  datatype Minted = Minted(payload: Payload, secret: string, exp: Option<int>, nbf: Option<int>)

  /** `issued` maps every compact token string ever minted to what it
      carries. A sound verifier accepts a string only if it was minted with
      the secret it is checked against, and returns the minted payload. */
  ghost predicate Unforgeable(verify: Verifier, issued: map<string, Minted>)
  {
    forall token, secret, tolerance ::
      verify(token, secret, tolerance).Verified? ==>
        token in issued && issued[token].secret == secret
        && verify(token, secret, tolerance).payload == issued[token].payload
  }

  /** A reference verifier at clock `now`: signature first, then `nbf`, then
      `exp`, each time claim compared with the leeway `tolerance` as section
      4.1.4 (exp) and 4.1.5 (nbf) of RFC 7519 allow. */
  function ReferenceVerify(issued: map<string, Minted>, now: int, token: string, secret: string, tolerance: nat): (r: VerifyOutcome)
    ensures r.Verified? ==> token in issued && issued[token].secret == secret
    ensures r.Verified? ==> issued[token].exp.None? || now < issued[token].exp.value + tolerance
  {
    if token !in issued || issued[token].secret != secret then Thrown(JsonWebTokenError)
    else
      var m := issued[token];
      if m.nbf.Some? && m.nbf.value > now + tolerance then Thrown(NotBeforeError)
      else if m.exp.Some? && now >= m.exp.value + tolerance then Thrown(TokenExpiredError)
      else Verified(m.payload)
  }

  function ReferenceVerifier(issued: map<string, Minted>, now: int): Verifier
  {
    (token: string, secret: string, tolerance: nat) => ReferenceVerify(issued, now, token, secret, tolerance)
  }

  /** The reference verifier is sound, so `Unforgeable` can be met. */
  lemma ReferenceUnforgeable(issued: map<string, Minted>, now: int)
    ensures Unforgeable(ReferenceVerifier(issued, now), issued)
  {
  }

  /** With leeway `tolerance`, a genuine token whose `exp` lies less than
      `tolerance` seconds in the past still verifies, and one whose `exp` lies
      `tolerance` or more seconds in the past is rejected as expired. */
  lemma ExpiryLeeway(issued: map<string, Minted>, now: int, token: string, tolerance: nat)
    requires token in issued
    requires issued[token].nbf.None? && issued[token].exp.Some?
    ensures var r := ReferenceVerify(issued, now, token, issued[token].secret, tolerance);
      (now - issued[token].exp.value < tolerance <==> r == Verified(issued[token].payload))
      && (now - issued[token].exp.value >= tolerance <==> r == Thrown(TokenExpiredError))
  {
  }
}
