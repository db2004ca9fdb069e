# Bearer-credential handling of the labeling-task service, in Dafny

This project models how the image-labeling service handles bearer credentials
on both sides of its HTTP boundary:

- **The backend's request authentication** (`backend/src/middleware.ts`).
  `authMiddleware` and `workerMiddleware` each take the request headers and
  decide, in a fixed order, between "attach this identity and call `next()`"
  and one `(status, error)` response. Each is a pure function. `jwt.verify`
  is an oracle parameter.
- **The requester's task-creation form** (`user-frontend/components/Upload.tsx`).
  It holds `images`, `title`, `loading` and `signature`, and has a payment
  handler, a submission handler and a button choice. It is a class whose
  handlers are split at their `await`. Wallet and backend answers are
  function parameters.
- **The front end's wallet session** (`user-frontend/components/auth.ts`).
  This covers the stored token and the default `Authorization` header, the
  token check, sign-in and the decision taken when a wallet connects. The
  two stores are a class; the decisions are pure functions.

Modules, one per file:
- `Wrappers`: `Option` and `Result`.
- `JsText`: JavaScript `trim`, `split`, `startsWith` and string truthiness.
- `Jwt`: the verification oracle and a reference verifier.
- `Middleware`: the two middlewares.
- `Upload`: the task-creation form.
- `Session`: the wallet session.
- `Interop`: how the front end's requests meet the header check.

The verifier has the type `(token, secret, clockTolerance) -> outcome`. A
successful outcome carries the payload; a failure carries the thrown error
class. `TokenExpiredError` and `NotBeforeError` are subclasses of
`JsonWebTokenError`, which is why the middlewares check for expiry first.

"Secrets are separate" is proved for any verifier that is *unforgeable*
(`Jwt.Unforgeable`). Such a verifier accepts a token string only under the
secret it was minted with, taken from a map of minted tokens that records
each token's secret. Under that assumption, with
`JWT_SECRET != WORKER_JWT_SECRET`, a worker token never reaches `next()`
through `authMiddleware`, and a user token never does through
`workerMiddleware`. `Jwt.ReferenceVerify` follows section 4.1.4 and section
4.1.5 of RFC 7519, with the leeway as a parameter. It shows the assumption
can be met. It also fixes the expiry boundary: with leeway 300, a token is
accepted up to 299 seconds after `exp` and is expired from 300 seconds on.

One fact spans the files. The task post (`Upload.tsx:63`) and the token
check (`auth.ts:78`) send the stored token as the whole `Authorization`
value, with no `Bearer ` prefix. `authMiddleware` refuses every such value
(a compact JWT has no space) with 401 `INVALID_AUTH_FORMAT`, whatever the
verifier says. Only the default header that `storeToken` installs has the
prefix. These requests override that header, and it would present the stored
token unchanged. Which routes use which middleware is not shown in the
source, so `Interop` states this about the header value only.

Three behaviours of the code worth noting:
- The worker middleware has no empty-token check. An empty worker token is
  handed to the verifier.
- The user middleware answers 500 `AUTHENTICATION_FAILURE` for an error that
  is not a JWT error.
- The error kinds are the strings the code sends.

## Model

| member | source | states |
|---|---|---|
| `JsText.TrimStart` | backend/src/middleware.ts:40 | the result is a suffix of the input, does not start with whitespace, and everything removed is whitespace |
| `JsText.TrimEnd` | backend/src/middleware.ts:40 | the result is a prefix of the input, does not end with whitespace, and everything removed is whitespace |
| `JsText.Trim` | backend/src/middleware.ts:40 | `trim()` is a slice of its input with only whitespace cut away on either side, and it neither starts nor ends with whitespace |
| `JsText.TrimmedAtOf` | backend/src/middleware.ts:40 | cutting leading and then trailing whitespace leaves a slice of the input with only whitespace around it |
| `JsText.TrimKeepsOut` | backend/src/middleware.ts:40 | trimming never introduces a character the input lacks |
| `JsText.TrimEmptyIff` | user-frontend/components/Upload.tsx:37 | `s.trim()` is empty exactly when every character of `s` is whitespace (the blank-title test) |
| `JsText.TrimNoWhitespace` | backend/src/middleware.ts:40 | trimming leaves a whitespace-free string unchanged |
| `JsText.Split` | backend/src/middleware.ts:40 | `split(sep)` yields at least one field and no field contains the separator |
| `JsText.SplitJoin` | backend/src/middleware.ts:40 | joining the fields of `split(sep)` with `sep` gives back the input |
| `JsText.SplitAfterField` | backend/src/middleware.ts:40 | a separator-free field followed by the separator is the first field of the split |
| `JsText.SplitNoSeparator` | backend/src/middleware.ts:40 | a string without the separator splits into itself alone |
| `Jwt.ReferenceVerify` | backend/src/middleware.ts:52 | the reference `jwt.verify` accepts only a minted token under its own secret, and only before `exp + clockTolerance` |
| `Jwt.ReferenceUnforgeable` | backend/src/middleware.ts:52 | the reference verifier is unforgeable, so the assumption of the separation lemmas can be met |
| `Jwt.ExpiryLeeway` | backend/src/middleware.ts:52 | with leeway `t`, a token less than `t` seconds past `exp` verifies and one `t` or more seconds past is expired (both directions) |
| `Middleware.AuthorizationHeader` | backend/src/middleware.ts:20 | the header is missing exactly when neither `authorization` nor `Authorization` is truthy; a found value is truthy |
| `Middleware.BearerToken` | backend/src/middleware.ts:40 | `split(" ")[1].trim()` on a `Bearer ` header is the first space-separated field after the prefix, trimmed, and contains no space |
| `Middleware.BearerTokenOfField` | backend/src/middleware.ts:40 | whatever follows a second space is ignored: the token is the trimmed field before it |
| `Middleware.EmptyBearerTokens` | backend/src/middleware.ts:40-48 | `"Bearer "` and `"Bearer "` followed by another space (as in `"Bearer  x"`) carry the empty token |
| `Middleware.BearerRoundTrip` | backend/src/middleware.ts:40 | a whitespace-free token comes back unchanged from the header `"Bearer " + token` |
| `Middleware.PresentedToken` | backend/src/middleware.ts:20-40 | a token is presented exactly when the header is a single string starting with `"Bearer "`; it has no space and no whitespace at either end |
| `Middleware.UserPrecheck` | backend/src/middleware.ts:20-48 | the user checks pass exactly when a well-formed header presents a non-empty token; otherwise the kind is missing, format or empty |
| `Middleware.UserVerdict` | backend/src/middleware.ts:50-93 | `next()` exactly for a verified object payload with a truthy `userId`, attaching `userId` and `role`; any other verified payload is 403 `INVALID_TOKEN_PAYLOAD`; every response is in the table and none is 401 |
| `Middleware.AuthMiddleware` | backend/src/middleware.ts:12-94 | every response is in the seven-entry table of `authMiddleware`; a 401 is sent exactly when a check before verification fails |
| `Middleware.UserUnauthorizedCauses` | backend/src/middleware.ts:22-48 | 401 `MISSING_AUTH_HEADER`, `INVALID_AUTH_FORMAT` and `EMPTY_TOKEN` each hold exactly under their own condition, in check order |
| `Middleware.UnauthorizedBeforeVerify` | backend/src/middleware.ts:20-52 | every 401 of either middleware is the same whatever the verifier would answer |
| `Middleware.UserAcceptance` | backend/src/middleware.ts:50-68 | `next()` is called exactly when the presented non-empty token verifies under the user secret with leeway 300 and its object payload has a truthy `userId`; `userId` and `role` are attached; any other verified payload gets 403 `INVALID_TOKEN_PAYLOAD` |
| `Middleware.ErrorMapping` | backend/src/middleware.ts:70-93 | expiry is checked before the generic JWT error; the user path gives 403 `INVALID_TOKEN` for other JWT errors and 500 for the rest; the worker path gives 403 for all |
| `Middleware.WorkerPrecheck` | backend/src/middleware.ts:104-122 | the worker checks pass exactly when a well-formed header presents a token, empty or not |
| `Middleware.WorkerVerdict` | backend/src/middleware.ts:124-153 | `next()` exactly for a verified object payload with a truthy `userId`, with `userRole` unset; any other verified payload is 403 `INVALID_WORKER_TOKEN`; every response is a 403 in the table |
| `Middleware.WorkerMiddleware` | backend/src/middleware.ts:97-154 | every response is in the five-entry worker table and never 500; a 401 is sent exactly when no token is presented |
| `Middleware.WorkerUnauthorizedCauses` | backend/src/middleware.ts:106-120 | 401 `MISSING_WORKER_AUTH_HEADER` and `INVALID_WORKER_AUTH_FORMAT` each hold exactly under their condition |
| `Middleware.WorkerAcceptance` | backend/src/middleware.ts:124-137 | `next()` is called exactly when the presented token (empty or not) verifies under the worker secret with a truthy `userId`; `userRole` is left unset; any other verified payload gets 403 `INVALID_WORKER_TOKEN` |
| `Middleware.WorkerVerifiesPresented` | backend/src/middleware.ts:104-125 | once a token is presented, `workerMiddleware` decides by what the verifier says about that token under the worker secret |
| `Middleware.WorkerEmptyToken` | backend/src/middleware.ts:122-152 | an empty token gets 401 `EMPTY_TOKEN` from the user middleware but reaches the worker verifier, and any non-expiry failure is 403 `INVALID_WORKER_CREDENTIALS` |
| `Middleware.WorkerEmptyTokenRejected` | backend/src/middleware.ts:122-152 | against the reference verifier an empty worker token is refused with 403 `INVALID_WORKER_CREDENTIALS` |
| `Middleware.UserAcceptsOnlyUserTokens` | backend/src/middleware.ts:52-68 | with an unforgeable verifier, whatever `authMiddleware` accepts was minted with the user secret, and the attached `userId` and `userRole` are exactly the minted claims |
| `Middleware.WorkerAcceptsOnlyWorkerTokens` | backend/src/middleware.ts:125-137 | with an unforgeable verifier, whatever `workerMiddleware` accepts was minted with the worker secret, and the attached `userId` is the minted one |
| `Middleware.SecretsSeparateRoles` | backend/src/middleware.ts:52-137 | with distinct secrets, a worker-minted token never passes `authMiddleware` and a user-minted token never passes `workerMiddleware` |
| `Upload.Options` | user-frontend/components/Upload.tsx:56 | the options have the images' length and carry each image URL at the same position |
| `Upload.ImageUrls` | user-frontend/components/Upload.tsx:56 | the URLs read from the options keep their length and order |
| `Upload.OptionsRoundTrip` | user-frontend/components/Upload.tsx:56 | reading the URLs back from the options gives exactly the images, in order |
| `Upload.PaymentCheck` | user-frontend/components/Upload.tsx:88-115 | a transaction is built exactly when every check passes, and it is one transfer of 100000000 lamports from the connected key to the parent address |
| `Upload.PaymentRejectionOrder` | user-frontend/components/Upload.tsx:88-103 | the first failing check (wallet, parent address, blank title, fewer than 2 images) decides the rejection |
| `Upload.SubmitRequest` | user-frontend/components/Upload.tsx:33-66 | a request is built exactly when every check passes; it carries the options in image order, the untrimmed title, the stored signature and the raw token |
| `Upload.SubmitRejectionOrder` | user-frontend/components/Upload.tsx:33-53 | the first failing check (signature, blank title, fewer than 2 images, no token) decides the rejection |
| `Upload.ButtonFor` | user-frontend/components/Upload.tsx:176-198 | the disabled button shows exactly while loading; submit is offered exactly when not loading with a signature; pay otherwise |
| `Upload.PaidFormIsSubmittable` | user-frontend/components/Upload.tsx:33-44 | a form that passed the payment checks and got a signature passes the submission checks and shows the submit button |
| `Upload.UploadForm.constructor` | user-frontend/components/Upload.tsx:25-28 | the form starts with no images, an empty title, not loading and no signature |
| `Upload.UploadForm.SetTitle` | user-frontend/components/Upload.tsx:152 | the title becomes the input's value and nothing else changes |
| `Upload.UploadForm.HandleImageAdded` | user-frontend/components/Upload.tsx:136-138 | exactly one URL is appended at the end; earlier entries and the other fields are unchanged |
| `Upload.UploadForm.StartPayment` | user-frontend/components/Upload.tsx:87-106 | a rejected payment changes nothing; an accepted one sets `loading` while the transfer is with the wallet |
| `Upload.UploadForm.FinishPayment` | user-frontend/components/Upload.tsx:117-133 | the signature is recorded only when the wallet sent the transaction, else kept; `loading` ends false |
| `Upload.UploadForm.MakePayment` | user-frontend/components/Upload.tsx:87-134 | the whole payment handler: rejection leaves the state alone; otherwise `loading` ends false and the signature is the wallet's answer or the old one |
| `Upload.UploadForm.StartSubmit` | user-frontend/components/Upload.tsx:32-60 | early rejections change nothing; a missing token sets and clears `loading`; otherwise `loading` is set while the request is in flight |
| `Upload.UploadForm.FinishSubmit` | user-frontend/components/Upload.tsx:61-84 | navigation to `/task/<id>` only on success; `loading` ends false |
| `Upload.UploadForm.HandleSubmit` | user-frontend/components/Upload.tsx:32-85 | the whole submission handler: the request is `SubmitRequest` of the state, `loading` ends false once past the early checks, navigation only on success |
| `Session.Utf8Char` | user-frontend/components/auth.ts:42 | `TextEncoder` encodes a character in one to four bytes by code-point range; an ASCII character is its own code; the lead byte announces the length, the rest are continuation bytes, and the payload bits give back the code point |
| `Session.Utf8Two` | user-frontend/components/auth.ts:42 | the two-byte form has a `110xxxxx` lead and a `10xxxxxx` continuation whose payload bits give back the code point |
| `Session.Utf8Three` | user-frontend/components/auth.ts:42 | the three-byte form has a `1110xxxx` lead and two continuation bytes whose payload bits give back the code point |
| `Session.Utf8Four` | user-frontend/components/auth.ts:42 | the four-byte form has a `11110xxx` lead and three continuation bytes whose payload bits give back the code point |
| `Session.Utf8` | user-frontend/components/auth.ts:42 | `new TextEncoder().encode(s)` takes between one and four bytes per character |
| `Session.Utf8Append` | user-frontend/components/auth.ts:42 | encoding distributes over concatenation |
| `Session.ChallengeBytesAscii` | user-frontend/components/auth.ts:42 | the challenge text is ASCII and the signed bytes are its character codes |
| `Session.ChallengeEncoding` | user-frontend/components/auth.ts:42-43 | the bytes the wallet is asked to sign are exactly the `TextEncoder` encoding of `"Sign into mechanical turks"` |
| `Session.Utf8Ascii` | user-frontend/components/auth.ts:42 | an ASCII message encodes to one byte per character, equal to its code |
| `Session.ByteNumbers` | user-frontend/components/auth.ts:49 | `Array.from(signature)` has the signature's length and each byte's value at the same position |
| `Session.ByteNumbersRoundTrip` | user-frontend/components/auth.ts:49 | reading the numbers back as bytes gives exactly the signature |
| `Session.NumberBytes` | user-frontend/components/auth.ts:49 | reading numbers back as bytes keeps length, order and values |
| `Session.SignInBody` | user-frontend/components/auth.ts:47-50 | the body carries the public key string and the signature as numbers of the same length and order |
| `Session.CheckVerdict` | user-frontend/components/auth.ts:75-87 | the token is valid exactly when the request succeeds; the store is cleared exactly on a 401, never together with valid |
| `Session.SessionPlan` | user-frontend/components/auth.ts:13-24 | nothing happens without a key and a signer; a stored token the backend accepts is kept; otherwise sign-in runs |
| `Session.SignInResult` | user-frontend/components/auth.ts:41-72 | a token results only if the wallet signed the challenge and the sign-in answer to that signature carries a non-empty token; each failure (declined signature, failed post, missing or empty token) gives its own error, exactly under its condition |
| `Session.TokenStore.constructor` | user-frontend/components/auth.ts:95-97 | a page starts with whatever local storage kept and no default header |
| `Session.TokenStore.StoreToken` | user-frontend/components/auth.ts:90-93 | afterwards the stored token is `t` and the default header is `"Bearer " + t` |
| `Session.TokenStore.GetToken` | user-frontend/components/auth.ts:95-97 | returns the stored token, or none |
| `Session.TokenStore.ClearToken` | user-frontend/components/auth.ts:99-102 | afterwards no token is stored and no default header remains |
| `Session.TokenStore.VerifyToken` | user-frontend/components/auth.ts:75-87 | returns true exactly on success; clears both stores on a 401 and leaves them on any other failure |
| `Session.TokenStore.HandleAuth` | user-frontend/components/auth.ts:37-73 | stores the token only when the sign-in answer carries one; every failure comes back as an error with both stores unchanged |
| `Session.TokenStore.Authenticate` | user-frontend/components/auth.ts:12-29 | follows `SessionPlan`: no wallet or a kept token changes nothing; sign-in stores the new token, and a failed sign-in leaves the store as the token check left it |
| `Interop.NoSpaceNotBearer` | backend/src/middleware.ts:31 | a string without a space never starts with `"Bearer "` |
| `Interop.RawTokenRejected` | backend/src/middleware.ts:31-37 | a raw token as the whole header gets 401 `INVALID_AUTH_FORMAT` (worker: `INVALID_WORKER_AUTH_FORMAT`) whatever the verifier says |
| `Interop.TaskPostHeaderRejected` | user-frontend/components/Upload.tsx:61-66 | the `Authorization` value of the task post is refused by `authMiddleware` for its format |
| `Interop.TokenCheckClearsRawToken` | user-frontend/components/auth.ts:77-85 | if `authMiddleware` answered the token check, the 401 it sends would make `verifyToken` clear the token |
| `Interop.DefaultHeaderPresentsToken` | user-frontend/components/auth.ts:92 | the default header `storeToken` installs presents exactly the stored token, which is then verified under the user secret |

## Left out

- The cryptography and clock arithmetic inside `jsonwebtoken` are not modelled. `jwt.verify` is an oracle parameter; the reference verifier follows RFC 7519, not the library's code.
- Ed25519 checking of the sign-in signature, the sign-in endpoint, token minting, task storage, checking payments on the ledger, and replay protection are not modelled. They live in the routers, which are not part of this model.
- `requestLogger`, all `console` logging, toasts, and the `message`/`solution`/`required` text of the JSON responses are left out. They are output only; the model keeps the status and the `error` field.
- Building and sending the Solana transaction is reduced to a `Transfer` record and a sent/failed answer. `new PublicKey(...)` throwing on a malformed parent address counts as a failed send. The `preflightCommitment`/`skipPreflight` options are not modelled.
- The axios and `localStorage` internals are left out. HTTP answers are a status or no response, and the two stores are fields. The default header is overridden by the explicit per-request header, as axios does.
- Async interleaving of handlers, React rendering and effect scheduling are not modelled. Only the Upload handlers are split at their `await` into a start and a finish step. `Session.TokenStore.VerifyToken`, `HandleAuth` and `Authenticate` run as single atomic steps, although `handleAuth` awaits twice and the `useWalletSession` handler awaits too. Two handlers in flight at once are not modelled.
- Claim values are strings, integers, booleans or null. Floating-point numbers (including `NaN`), nested objects and a `null` payload are not modelled.
- Header names are looked up exactly as the code does. Node's lowercasing of incoming names is stated only in `Interop.RequestHeaders`.
- `Session.Utf8`: JavaScript strings with lone surrogates, which `TextEncoder` replaces, are not modelled. Dafny characters are Unicode scalar values.
- `Session.TokenStore.constructor`: it does not establish `Consistent()`. After a page reload, local storage may hold a token while axios has no default header, and the code does nothing about it.
- `user-frontend/components/UploadImage.tsx` (presigned-upload plumbing), `user-frontend/components/WalletButton.tsx` (a demo sign-in storing a fixed token) and `backend/src/index.ts` (server wiring) are not part of this model.
