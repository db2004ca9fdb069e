/** How the front end's requests meet the backend's header check. The task
    post and the token check send the stored token itself as the
    `Authorization` value, with no `"Bearer "` in front, while the default
    header `storeToken` installs does carry the prefix. These lemmas are
    about the header value alone: which routes sit behind which middleware
    is not part of this model. */
module Interop {
  import opened Wrappers
  import opened JsText
  import Jwt
  import Middleware
  import Upload
  import Session

  /** The headers the backend sees for a request whose `Authorization`
      value is `value` (Node lowercases header names). */
  function RequestHeaders(value: string): (h: Middleware.Headers)
  {
    map["authorization" := Middleware.Single(value)]
  }

  /** A compact JWT is dot-separated base64url text: it has no space, so it
      never starts with the Bearer prefix. */
  lemma NoSpaceNotBearer(token: string)
    requires ' ' !in token
    ensures !StartsWith(token, Middleware.BearerPrefix)
  {
    if |token| >= |Middleware.BearerPrefix| {
      assert token[6] in token;
      assert token[..7][6] != Middleware.BearerPrefix[6];
    }
  }

  /** A raw token as the whole `Authorization` value is refused by both
      middlewares for its format, whatever the verifier would say. */
  lemma RawTokenRejected(token: string, secrets: Middleware.Secrets, verify: Jwt.Verifier)
    requires token != [] && ' ' !in token
    ensures Middleware.AuthMiddleware(RequestHeaders(token), secrets, verify)
      == Middleware.Respond(401, Middleware.InvalidAuthFormat)
    ensures Middleware.WorkerMiddleware(RequestHeaders(token), secrets, verify)
      == Middleware.Respond(401, Middleware.InvalidWorkerAuthFormat)
  {
    NoSpaceNotBearer(token);
  }

  /** The task post `handleSubmit` builds carries such a raw token. */
  lemma TaskPostHeaderRejected(signature: Option<string>, title: string, images: seq<string>, token: string,
                               secrets: Middleware.Secrets, verify: Jwt.Verifier)
    requires ' ' !in token
    requires Upload.SubmitRequest(signature, title, images, Some(token)).Ok?
    ensures var request := Upload.SubmitRequest(signature, title, images, Some(token)).value;
      Middleware.AuthMiddleware(RequestHeaders(request.authorization), secrets, verify)
        == Middleware.Respond(401, Middleware.InvalidAuthFormat)
  {
    RawTokenRejected(token, secrets, verify);
  }

  /** If the token check were answered by `authMiddleware`, it would get a
      401 for every stored JWT, so `verifyToken` would clear it and
      `useWalletSession` would sign in again. */
  lemma TokenCheckClearsRawToken(token: string, secrets: Middleware.Secrets, verify: Jwt.Verifier)
    requires token != [] && ' ' !in token
    ensures var d := Middleware.AuthMiddleware(RequestHeaders(token), secrets, verify);
      d.Respond? && Session.CheckVerdict(Session.Status(d.status)) == Session.TokenVerdict(false, true)
  {
    RawTokenRejected(token, secrets, verify);
  }

  /** The default header `storeToken` installs presents exactly the stored
      token (when it has no whitespace), so it passes every check made before
      verification, and the user middleware verifies that token under the
      user secret. */
  lemma DefaultHeaderPresentsToken(token: string, secrets: Middleware.Secrets, verify: Jwt.Verifier)
    requires token != []
    requires forall k :: 0 <= k < |token| ==> !IsWhitespace(token[k])
    ensures Middleware.PresentedToken(RequestHeaders(Session.BearerPrefix + token)) == Some(token)
    ensures Middleware.AuthMiddleware(RequestHeaders(Session.BearerPrefix + token), secrets, verify)
      == Middleware.UserVerdict(verify(token, secrets.user, Middleware.ClockTolerance))
  {
    var header := Session.BearerPrefix + token;
    assert Session.BearerPrefix == Middleware.BearerPrefix;
    Middleware.BearerRoundTrip(token);
    assert Middleware.AuthorizationHeader(RequestHeaders(header)) == Some(Middleware.Single(header));
  }
}
