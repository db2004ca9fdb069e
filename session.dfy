/** The front end's wallet session: the stored token and the default
    `Authorization` header (`storeToken`, `getToken`, `clearToken`), the
    token check against the backend (`verifyToken`), wallet sign-in
    (`handleAuth`) and the decision `useWalletSession` takes when a wallet
    connects. The wallet's `signMessage` and the backend's answers are
    function parameters. */
module Session {
  import opened Wrappers

  /** The fixed text every sign-in signs; it carries no nonce. */
  const ChallengeMessage: string := "Sign into mechanical turks"

  /** `ChallengeMessage` as the bytes the wallet signs. */
  const ChallengeBytes: seq<byte> := [0x53, 0x69, 0x67, 0x6E, 0x20, 0x69, 0x6E, 0x74, 0x6F, 0x20, 0x6D, 0x65, 0x63, 0x68, 0x61, 0x6E, 0x69, 0x63, 0x61, 0x6C, 0x20, 0x74, 0x75, 0x72, 0x6B, 0x73]

  const BearerPrefix: string := "Bearer "

  newtype byte = x: int | 0 <= x < 256

  /** `new TextEncoder().encode(s)`: UTF-8, one to four bytes per character. */
  function Utf8(s: string): (r: seq<byte>)
    ensures |s| <= |r| <= 4 * |s|
  {
    if s == [] then [] else Utf8Char(s[0]) + Utf8(s[1..])
  }

  /** The UTF-8 encoding of one character (a Unicode scalar value): its
      length is fixed by the code point's range, the lead byte announces
      that length, every other byte is a continuation byte, and the payload
      bits read back give the code point. */
  function Utf8Char(c: char): (r: seq<byte>)
    ensures 1 <= |r| <= 4
    ensures (c as int < 0x80) <==> |r| == 1
    ensures (0x80 <= c as int < 0x800) <==> |r| == 2
    ensures (0x800 <= c as int < 0x1_0000) <==> |r| == 3
    ensures |r| == 1 ==> r == [c as int as byte]
    ensures |r| == 2 ==>
      0xC0 <= r[0] as int < 0xE0 && 0x80 <= r[1] as int < 0xC0
      && (r[0] as int - 0xC0) * 0x40 + (r[1] as int - 0x80) == c as int
    ensures |r| == 3 ==>
      0xE0 <= r[0] as int < 0xF0 && 0x80 <= r[1] as int < 0xC0 && 0x80 <= r[2] as int < 0xC0
      && (r[0] as int - 0xE0) * 0x1000 + (r[1] as int - 0x80) * 0x40 + (r[2] as int - 0x80) == c as int
    ensures |r| == 4 ==>
      0xF0 <= r[0] as int < 0xF8 && 0x80 <= r[1] as int < 0xC0
      && 0x80 <= r[2] as int < 0xC0 && 0x80 <= r[3] as int < 0xC0
      && (r[0] as int - 0xF0) * 0x4_0000 + (r[1] as int - 0x80) * 0x1000
         + (r[2] as int - 0x80) * 0x40 + (r[3] as int - 0x80) == c as int
  {
    var n := c as int;
    if n < 0x80 then [n as byte]
    else if n < 0x800 then Utf8Two(n)
    else if n < 0x1_0000 then Utf8Three(n)
    else Utf8Four(n)
  }

  /** Two-byte form: five payload bits in the lead byte, six in the other. */
  function Utf8Two(n: int): (r: seq<byte>)
    requires 0x80 <= n < 0x800
    ensures |r| == 2
    ensures 0xC0 <= r[0] as int < 0xE0 && 0x80 <= r[1] as int < 0xC0
    ensures (r[0] as int - 0xC0) * 0x40 + (r[1] as int - 0x80) == n
  {
    [(0xC0 + n / 0x40) as byte, (0x80 + n % 0x40) as byte]
  }

  /** Three-byte form: four payload bits in the lead byte, six in each other. */
  function Utf8Three(n: int): (r: seq<byte>)
    requires 0x800 <= n < 0x1_0000
    ensures |r| == 3
    ensures 0xE0 <= r[0] as int < 0xF0 && 0x80 <= r[1] as int < 0xC0 && 0x80 <= r[2] as int < 0xC0
    ensures (r[0] as int - 0xE0) * 0x1000 + (r[1] as int - 0x80) * 0x40 + (r[2] as int - 0x80) == n
  {
    var hi, mid, lo := n / 0x1000, (n / 0x40) % 0x40, n % 0x40;
    assert n / 0x40 == hi * 0x40 + mid;
    [(0xE0 + hi) as byte, (0x80 + mid) as byte, (0x80 + lo) as byte]
  }

  /** Four-byte form: three payload bits in the lead byte, six in each other. */
  function Utf8Four(n: int): (r: seq<byte>)
    requires 0x1_0000 <= n < 0x11_0000
    ensures |r| == 4
    ensures 0xF0 <= r[0] as int < 0xF8 && 0x80 <= r[1] as int < 0xC0
            && 0x80 <= r[2] as int < 0xC0 && 0x80 <= r[3] as int < 0xC0
    ensures (r[0] as int - 0xF0) * 0x4_0000 + (r[1] as int - 0x80) * 0x1000
            + (r[2] as int - 0x80) * 0x40 + (r[3] as int - 0x80) == n
  {
    var top, hi, mid, lo := n / 0x4_0000, (n / 0x1000) % 0x40, (n / 0x40) % 0x40, n % 0x40;
    assert n / 0x1000 == top * 0x40 + hi;
    assert n / 0x40 == (n / 0x1000) * 0x40 + mid;
    [(0xF0 + top) as byte, (0x80 + hi) as byte, (0x80 + mid) as byte, (0x80 + lo) as byte]
  }

  /** The challenge is ASCII and its bytes are its character codes. */
  lemma ChallengeBytesAscii()
    ensures |ChallengeBytes| == |ChallengeMessage|
    ensures forall i :: 0 <= i < |ChallengeMessage| ==>
      ChallengeMessage[i] as int < 0x80 && ChallengeBytes[i] as int == ChallengeMessage[i] as int
  {
  }

  /** The bytes the wallet is asked to sign are exactly
      `new TextEncoder().encode(ChallengeMessage)`. */
  lemma ChallengeEncoding()
    ensures Utf8(ChallengeMessage) == ChallengeBytes
  {
    ChallengeBytesAscii();
    Utf8Ascii(ChallengeMessage);
  }

  /** Encoding distributes over concatenation. */
  lemma {:induction false} Utf8Append(a: string, b: string)
    ensures Utf8(a + b) == Utf8(a) + Utf8(b)
  {
    if a == [] {
      assert a + b == b;
    } else {
      assert (a + b)[0] == a[0] && (a + b)[1..] == a[1..] + b;
      Utf8Append(a[1..], b);
    }
  }

  /** An ASCII string encodes to one byte per character, the character's code. */
  lemma {:induction false} Utf8Ascii(s: string)
    requires forall i :: 0 <= i < |s| ==> s[i] as int < 0x80
    ensures |Utf8(s)| == |s|
    ensures forall i :: 0 <= i < |s| ==> Utf8(s)[i] as int == s[i] as int
  {
    if s != [] {
      Utf8Ascii(s[1..]);
      forall i | 1 <= i < |s| ensures Utf8(s)[i] as int == s[i] as int {
        assert Utf8(s)[i] == Utf8(s[1..])[i - 1];
      }
    }
  }

  /** `Array.from(signature)`: the signature bytes as a list of numbers. */
  function ByteNumbers(bytes: seq<byte>): (r: seq<int>)
    ensures |r| == |bytes|
    ensures forall i :: 0 <= i < |bytes| ==> r[i] == bytes[i] as int && 0 <= r[i] < 256
  {
    if bytes == [] then [] else [bytes[0] as int] + ByteNumbers(bytes[1..])
  }

  /** The numbers read back as bytes, the way the backend reads the body. */
  function NumberBytes(numbers: seq<int>): (bytes: seq<byte>)
    requires forall i :: 0 <= i < |numbers| ==> 0 <= numbers[i] < 256
    ensures |bytes| == |numbers|
    ensures forall i :: 0 <= i < |numbers| ==> bytes[i] as int == numbers[i]
  {
    if numbers == [] then [] else [numbers[0] as byte] + NumberBytes(numbers[1..])
  }

  /** The list of numbers gives back the signature, byte for byte. */
  lemma {:induction false} ByteNumbersRoundTrip(bytes: seq<byte>)
    ensures NumberBytes(ByteNumbers(bytes)) == bytes
  {
    if bytes != [] {
      ByteNumbersRoundTrip(bytes[1..]);
      assert ByteNumbers(bytes)[1..] == ByteNumbers(bytes[1..]);
    }
  }

  /** An HTTP answer as axios reports it: a response with a status, or none
      at all (network failure). axios resolves only for a 2xx status. */
  datatype HttpReply = Status(code: int) | NoResponse

  predicate Succeeded(reply: HttpReply)
  {
    reply.Status? && 200 <= reply.code < 300
  }

  /** What `verifyToken` concludes: whether the token is valid, and whether
      it clears the stored token. */
  datatype TokenVerdict = TokenVerdict(valid: bool, clearStored: bool)

  /** `verifyToken`'s rule: valid exactly when the request succeeds; the
      stored token is cleared on a 401 and on nothing else. */
  function CheckVerdict(reply: HttpReply): (v: TokenVerdict)
    ensures v.valid <==> Succeeded(reply)
    ensures v.clearStored <==> reply == Status(401)
    ensures !(v.valid && v.clearStored)
  {
    if Succeeded(reply) then TokenVerdict(true, false)
    else TokenVerdict(false, reply.Status? && reply.code == 401)
  }

  /** The wallet as `useWallet` exposes it. */
  datatype WalletCaps = WalletCaps(publicKey: Option<string>, canSign: bool)

  /** What `signMessage` resolves to, or that it threw. */
  datatype SignOutcome = Signed(signature: seq<byte>) | SignDeclined

  /** The sign-in body: the public key as a string and the signature as numbers. */
  datatype SignInRequest = SignInRequest(publicKey: string, signature: seq<int>)

  /** What the sign-in post resolves to (with the `token` field of its body,
      if any), or that it threw. */
  datatype SignInReply = Answered(token: Option<string>) | SignInPostFailed

  /** Why `handleAuth` threw. */
  datatype AuthFailure = SigningFailed | SignInRejected | NoTokenReceived

  /** What `useWalletSession` does when the wallet changes. */
  datatype Plan = Idle | KeepToken | SignIn

  /** `useWalletSession`'s decision: nothing without a key and a signer;
      keep a stored token the backend accepts; sign in otherwise. `me`
      answers the token check for a given `Authorization` value. */
  function SessionPlan(wallet: WalletCaps, stored: Option<string>, me: string -> HttpReply): (p: Plan)
    ensures p == Idle <==> wallet.publicKey.None? || !wallet.canSign
    ensures p == KeepToken <==> (wallet.publicKey.Some? && wallet.canSign
                                && stored.Some? && stored.value != [] && Succeeded(me(stored.value)))
  {
    if wallet.publicKey.None? || !wallet.canSign then Idle
    else if stored.Some? && stored.value != [] && CheckVerdict(me(stored.value)).valid then KeepToken
    else SignIn
  }

  /** The sign-in request `handleAuth` sends once the wallet signed. */
  function SignInBody(publicKey: string, signature: seq<byte>): (r: SignInRequest)
    ensures r.publicKey == publicKey && |r.signature| == |signature|
    ensures forall i :: 0 <= i < |signature| ==> r.signature[i] == signature[i] as int
    ensures NumberBytes(r.signature) == signature
  {
    ByteNumbersRoundTrip(signature);
    SignInRequest(publicKey, ByteNumbers(signature))
  }

  /** How `handleAuth` ends: the token it stores, or the error it rethrows.
      The signed message is always the challenge. */
  function SignInResult(publicKey: string, sign: seq<byte> -> SignOutcome, signIn: SignInRequest -> SignInReply): (r: Result<string, AuthFailure>)
    ensures r.Ok? ==> (sign(ChallengeBytes).Signed?
                       && signIn(SignInBody(publicKey, sign(ChallengeBytes).signature)) == Answered(Some(r.value))
                       && r.value != [])
    ensures sign(ChallengeBytes).SignDeclined? <==> r == Err(SigningFailed)
    ensures r == Err(SignInRejected) <==> (sign(ChallengeBytes).Signed?
      && signIn(SignInBody(publicKey, sign(ChallengeBytes).signature)).SignInPostFailed?)
    ensures r == Err(NoTokenReceived) <==> (sign(ChallengeBytes).Signed?
      && var reply := signIn(SignInBody(publicKey, sign(ChallengeBytes).signature));
      reply.Answered? && (reply.token.None? || reply.token.value == []))
  {
    match sign(ChallengeBytes)
    case SignDeclined => Err(SigningFailed)
    case Signed(signature) =>
      match signIn(SignInBody(publicKey, signature))
      case SignInPostFailed => Err(SignInRejected)
      case Answered(token) =>
        if token.Some? && token.value != [] then Ok(token.value) else Err(NoTokenReceived)
  }

  /** The outcome of one run of `useWalletSession`'s handler. */
  datatype SessionOutcome = NoWallet | KeptToken | SignedIn(token: string) | AuthFailed(error: AuthFailure)

  /** `localStorage`'s `token` entry and axios's default `Authorization`
      header, both updated in place. */
  class TokenStore {
    var stored: Option<string>
    var defaultAuthorization: Option<string>

    /** A fresh page: whatever `localStorage` kept, and no default header. */
    constructor (persisted: Option<string>)
      ensures stored == persisted && defaultAuthorization == None
    {
      stored, defaultAuthorization := persisted, None;
    }

    /** The default header carries the stored token under the Bearer
        scheme, and there is none without a stored token. */
    ghost predicate Consistent()
      reads this
    {
      match stored
      case None => defaultAuthorization.None?
      case Some(t) => defaultAuthorization == Some(BearerPrefix + t)
    }

    /** `storeToken`. */
    method StoreToken(token: string)
      modifies this
      ensures stored == Some(token) && defaultAuthorization == Some(BearerPrefix + token)
      ensures Consistent()
    {
      stored := Some(token);
      defaultAuthorization := Some(BearerPrefix + token);
    }

    /** `getToken`. */
    method GetToken() returns (token: Option<string>)
      ensures token == stored
    {
      token := stored;
    }

    /** `clearToken`. */
    method ClearToken()
      modifies this
      ensures stored == None && defaultAuthorization == None
      ensures Consistent()
    {
      stored := None;
      defaultAuthorization := None;
    }

    /** `verifyToken`: asks the backend with the raw token as the
        `Authorization` value; clears the store only on a 401. */
    method VerifyToken(token: string, me: string -> HttpReply) returns (valid: bool)
      modifies this
      ensures valid <==> Succeeded(me(token))
      ensures me(token) == Status(401) ==> stored == None && defaultAuthorization == None
      ensures me(token) != Status(401) ==>
        stored == old(stored) && defaultAuthorization == old(defaultAuthorization)
    {
      var verdict := CheckVerdict(me(token));
      if verdict.clearStored {
        ClearToken();
      }
      valid := verdict.valid;
    }

    /** `handleAuth`: signs the challenge, posts the key and signature, and
        stores the token only if the answer carries one; every failure is
        reported back to the caller with nothing stored. */
    method HandleAuth(publicKey: string, sign: seq<byte> -> SignOutcome, signIn: SignInRequest -> SignInReply)
      returns (r: Result<string, AuthFailure>)
      modifies this
      ensures r == SignInResult(publicKey, sign, signIn)
      ensures r.Ok? ==> stored == Some(r.value) && defaultAuthorization == Some(BearerPrefix + r.value)
      ensures r.Err? ==> stored == old(stored) && defaultAuthorization == old(defaultAuthorization)
    {
      var outcome := sign(ChallengeBytes);
      if outcome.SignDeclined? {
        return Err(SigningFailed);
      }
      var reply := signIn(SignInBody(publicKey, outcome.signature));
      if reply.SignInPostFailed? {
        return Err(SignInRejected);
      }
      if reply.token.Some? && reply.token.value != [] {
        StoreToken(reply.token.value);
        r := Ok(reply.token.value);
      } else {
        r := Err(NoTokenReceived);
      }
    }

    /** The handler `useWalletSession` runs when the wallet changes. */
    method Authenticate(wallet: WalletCaps, me: string -> HttpReply,
                        sign: seq<byte> -> SignOutcome, signIn: SignInRequest -> SignInReply)
      returns (outcome: SessionOutcome)
      modifies this
      ensures var plan := SessionPlan(wallet, old(stored), me);
        && (plan == Idle <==> outcome == NoWallet)
        && (plan == KeepToken <==> outcome == KeptToken)
        && (plan == SignIn ==> outcome == match SignInResult(wallet.publicKey.value, sign, signIn)
                                         case Ok(t) => SignedIn(t)
                                         case Err(e) => AuthFailed(e))
      ensures outcome == NoWallet || outcome == KeptToken ==>
        stored == old(stored) && defaultAuthorization == old(defaultAuthorization)
      ensures outcome.SignedIn? ==> stored == Some(outcome.token) && Consistent()
      ensures outcome.AuthFailed? ==>
        if old(stored).Some? && old(stored).value != [] && me(old(stored).value) == Status(401)
        then stored == None && defaultAuthorization == None
        else stored == old(stored) && defaultAuthorization == old(defaultAuthorization)
    {
      if wallet.publicKey.None? || !wallet.canSign {
        return NoWallet;
      }
      var token := GetToken();
      if token.Some? && token.value != [] {
        var valid := VerifyToken(token.value, me);
        if valid {
          return KeptToken;
        }
      }
      var r := HandleAuth(wallet.publicKey.value, sign, signIn);
      outcome := match r case Ok(t) => SignedIn(t) case Err(e) => AuthFailed(e);
    }
  }
}
