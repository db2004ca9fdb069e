/** The task-creation form of the requester's front end: its state
    (`images`, `title`, `loading`, `signature`), the payment handler, the
    submission handler, image addition, and which button is shown. Calls to
    the wallet and to the backend are function parameters standing for
    whatever they answer. */
module Upload {
  import opened Wrappers
  import opened JsText

  /** The price of a task: 0.1 SOL. */
  const PaymentLamports: nat := 100000000

  /** Fewest images a task may have. */
  const MinImages: nat := 2

  const TaskPath: string := "/v1/user/task"

  /** The connected wallet: its public key (if any) and whether it offers
      `sendTransaction`. */
  datatype Wallet = Wallet(publicKey: Option<string>, canSend: bool)

  /** The single `SystemProgram.transfer` instruction of the payment. */
  datatype Transfer = Transfer(fromPubkey: string, toPubkey: string, lamports: nat)

  /** What `sendTransaction` resolves to, or that it threw. */
  datatype SendOutcome = Sent(txSignature: string) | SendFailed

  datatype ImageOption = ImageOption(imageUrl: string)

  /** The JSON body posted to create a task. */
  datatype TaskSubmission = TaskSubmission(options: seq<ImageOption>, title: string, signature: string)

  /** The task-creation request: path, `Authorization` header value, body. */
  datatype TaskRequest = TaskRequest(path: string, authorization: string, body: TaskSubmission)

  /** What the task-creation post resolves to, or that it threw. */
  datatype TaskReply = Created(id: string) | PostFailed

  /** Why a handler stopped before sending anything. */
  datatype Rejection =
    | SignatureNotFound
    | WalletNotConnected
    | ParentAddressUnset
    | TitleMissing
    | TooFewImages
    | NotAuthenticated

  /** The single button under the form. */
  datatype Button = Processing | SubmitTask | PayToSubmit

  /** `signature` is truthy: set and non-empty. */
  predicate HasSignature(signature: Option<string>)
  {
    signature.Some? && signature.value != []
  }

  /** `images.map(imageUrl => ({ imageUrl }))`. */
  function Options(images: seq<string>): (r: seq<ImageOption>)
    ensures |r| == |images|
    ensures forall i :: 0 <= i < |images| ==> r[i].imageUrl == images[i]
  {
    if images == [] then [] else [ImageOption(images[0])] + Options(images[1..])
  }

  /** The image URLs a list of options carries. */
  function ImageUrls(options: seq<ImageOption>): (urls: seq<string>)
    ensures |urls| == |options|
    ensures forall i :: 0 <= i < |options| ==> urls[i] == options[i].imageUrl
  {
    if options == [] then [] else [options[0].imageUrl] + ImageUrls(options[1..])
  }

  /** The options give back exactly the images, in order. */
  lemma {:induction false} OptionsRoundTrip(images: seq<string>)
    ensures ImageUrls(Options(images)) == images
  {
    if images != [] {
      OptionsRoundTrip(images[1..]);
      assert Options(images)[1..] == Options(images[1..]);
    }
  }

  /** `makePayment`'s checks in order, and the transfer it then builds:
      exactly 0.1 SOL from the connected key to the parent wallet. */
  function PaymentCheck(wallet: Wallet, parentAddress: string, title: string, images: seq<string>): (r: Result<Transfer, Rejection>)
    ensures r.Ok? <==> (wallet.publicKey.Some? && wallet.canSend && parentAddress != []
                        && Trim(title) != [] && |images| >= MinImages)
    ensures r.Ok? ==> r.value == Transfer(wallet.publicKey.value, parentAddress, PaymentLamports)
  {
    if wallet.publicKey.None? || !wallet.canSend then Err(WalletNotConnected)
    else if parentAddress == [] then Err(ParentAddressUnset)
    else if Trim(title) == [] then Err(TitleMissing)
    else if |images| < MinImages then Err(TooFewImages)
    else Ok(Transfer(wallet.publicKey.value, parentAddress, PaymentLamports))
  }

  /** `handleSubmit`'s checks in order and the request it then sends: the
      options in image order, the title untrimmed, the stored payment
      signature, and the stored token as the raw `Authorization` value. */
  function SubmitRequest(signature: Option<string>, title: string, images: seq<string>, storedToken: Option<string>): (r: Result<TaskRequest, Rejection>)
    ensures r.Ok? <==> (HasSignature(signature) && Trim(title) != [] && |images| >= MinImages
                        && storedToken.Some? && storedToken.value != [])
    ensures r.Ok? ==> (r.value.path == TaskPath && r.value.authorization == storedToken.value
                       && r.value.body.title == title && r.value.body.signature == signature.value
                       && |r.value.body.options| == |images|
                       && forall i :: 0 <= i < |images| ==> r.value.body.options[i].imageUrl == images[i])
  {
    if !HasSignature(signature) then Err(SignatureNotFound)
    else if Trim(title) == [] then Err(TitleMissing)
    else if |images| < MinImages then Err(TooFewImages)
    else if storedToken.None? || storedToken.value == [] then Err(NotAuthenticated)
    else Ok(TaskRequest(TaskPath, storedToken.value, TaskSubmission(Options(images), title, signature.value)))
  }

  /** The button shown: disabled while loading, submit once a payment
      signature is held, pay otherwise. */
  function ButtonFor(loading: bool, signature: Option<string>): (b: Button)
    ensures b == Processing <==> loading
    ensures b == SubmitTask <==> !loading && HasSignature(signature)
    ensures b == PayToSubmit <==> !loading && !HasSignature(signature)
  {
    if loading then Processing else if HasSignature(signature) then SubmitTask else PayToSubmit
  }

  /** The first failing check of `makePayment` decides its rejection. */
  lemma PaymentRejectionOrder(wallet: Wallet, parentAddress: string, title: string, images: seq<string>)
    ensures var r := PaymentCheck(wallet, parentAddress, title, images);
      && (r == Err(WalletNotConnected) <==> wallet.publicKey.None? || !wallet.canSend)
      && (r == Err(ParentAddressUnset) <==> wallet.publicKey.Some? && wallet.canSend && parentAddress == [])
      && (r == Err(TitleMissing) <==> wallet.publicKey.Some? && wallet.canSend && parentAddress != [] && Trim(title) == [])
      && (r == Err(TooFewImages) <==> (wallet.publicKey.Some? && wallet.canSend && parentAddress != []
                                       && Trim(title) != [] && |images| < MinImages))
  {
  }

  /** The first failing check of `handleSubmit` decides its rejection. */
  lemma SubmitRejectionOrder(signature: Option<string>, title: string, images: seq<string>, storedToken: Option<string>)
    ensures var r := SubmitRequest(signature, title, images, storedToken);
      && (r == Err(SignatureNotFound) <==> !HasSignature(signature))
      && (r == Err(TitleMissing) <==> HasSignature(signature) && Trim(title) == [])
      && (r == Err(TooFewImages) <==> HasSignature(signature) && Trim(title) != [] && |images| < MinImages)
      && (r == Err(NotAuthenticated) <==> (HasSignature(signature) && Trim(title) != [] && |images| >= MinImages
                                           && (storedToken.None? || storedToken.value == [])))
  {
  }

  /** A form that passed the payment checks and then obtained a payment
      signature passes the submission checks whenever a token is stored, and
      shows the submit button once no longer loading. */
  lemma PaidFormIsSubmittable(wallet: Wallet, parentAddress: string, title: string, images: seq<string>, txSignature: string, token: string)
    requires PaymentCheck(wallet, parentAddress, title, images).Ok?
    requires txSignature != [] && token != []
    ensures SubmitRequest(Some(txSignature), title, images, Some(token)).Ok?
    ensures ButtonFor(false, Some(txSignature)) == SubmitTask
  {
  }

  /** The form's component state, updated in place through its setters. */
  class UploadForm {
    var images: seq<string>
    var title: string
    var loading: bool
    var signature: Option<string>

    constructor ()
      ensures images == [] && title == [] && !loading && signature == None
    {
      images, title, loading, signature := [], [], false, None;
    }

    /** The title input's `onChange`. */
    method SetTitle(t: string)
      modifies this`title
      ensures title == t
    {
      title := t;
    }

    /** `handleImageAdded`: appends exactly one URL, earlier ones untouched. */
    method HandleImageAdded(imageUrl: string)
      modifies this`images
      ensures images == old(images) + [imageUrl]
      ensures |images| == |old(images)| + 1 && images[..|old(images)|] == old(images)
    {
      images := images + [imageUrl];
    }

    /** `makePayment` up to the wallet call: on any failed check nothing is
      built and nothing changes; otherwise `loading` is set and the
      transfer is handed to the wallet. */
    method StartPayment(wallet: Wallet, parentAddress: string) returns (r: Result<Transfer, Rejection>)
      modifies this`loading
      ensures r == PaymentCheck(wallet, parentAddress, title, images)
      ensures r.Err? ==> loading == old(loading)
      ensures r.Ok? ==> loading
    {
      r := PaymentCheck(wallet, parentAddress, title, images);
      if r.Ok? {
        loading := true;
      }
    }

    /** `makePayment` after the wallet answered: the signature is recorded
      only when the transaction was sent, and `loading` is cleared either way. */
    method FinishPayment(outcome: SendOutcome)
      modifies this`loading, this`signature
      ensures !loading
      ensures signature == if outcome.Sent? then Some(outcome.txSignature) else old(signature)
    {
      if outcome.Sent? {
        signature := Some(outcome.txSignature);
      }
      loading := false;
    }

    /** `makePayment` as a whole, `send` standing for the wallet. */
    method MakePayment(wallet: Wallet, parentAddress: string, send: Transfer -> SendOutcome) returns (r: Result<Transfer, Rejection>)
      modifies this`loading, this`signature
      ensures r == PaymentCheck(wallet, parentAddress, old(title), old(images))
      ensures r.Err? ==> loading == old(loading) && signature == old(signature)
      ensures r.Ok? ==> (!loading
                         && signature == if send(r.value).Sent? then Some(send(r.value).txSignature) else old(signature))
    {
      r := StartPayment(wallet, parentAddress);
      if r.Ok? {
        FinishPayment(send(r.value));
      }
    }

    /** `handleSubmit` up to the post: the signature, title and image checks
      leave everything as it was; past them `loading` is set, and a missing
      token clears it again without sending anything. */
    method StartSubmit(storedToken: Option<string>) returns (r: Result<TaskRequest, Rejection>)
      modifies this`loading
      ensures r == SubmitRequest(signature, title, images, storedToken)
      ensures r.Ok? ==> loading
      ensures r == Err(NotAuthenticated) ==> !loading
      ensures r.Err? && r != Err(NotAuthenticated) ==> loading == old(loading)
    {
      r := SubmitRequest(signature, title, images, storedToken);
      if r.Ok? {
        loading := true;
      } else if r == Err(NotAuthenticated) {
        // `setLoading(true)` runs before the token lookup, and the
        // `finally` block clears it on the early return.
        loading := true;
        loading := false;
      }
    }

    /** `handleSubmit` after the post: navigate to the new task on success;
      `loading` is cleared either way. */
    method FinishSubmit(reply: TaskReply) returns (navigateTo: Option<string>)
      modifies this`loading
      ensures !loading
      ensures navigateTo == if reply.Created? then Some("/task/" + reply.id) else None
    {
      navigateTo := if reply.Created? then Some("/task/" + reply.id) else None;
      loading := false;
    }

    /** `handleSubmit` as a whole, `post` standing for the backend. */
    method HandleSubmit(storedToken: Option<string>, post: TaskRequest -> TaskReply) returns (r: Result<TaskRequest, Rejection>, navigateTo: Option<string>)
      modifies this`loading
      ensures r == SubmitRequest(signature, title, images, storedToken)
      ensures r.Ok? ==> (!loading
                         && navigateTo == if post(r.value).Created? then Some("/task/" + post(r.value).id) else None)
      ensures r.Err? ==> navigateTo == None
      ensures r == Err(NotAuthenticated) ==> !loading
      ensures r.Err? && r != Err(NotAuthenticated) ==> loading == old(loading)
    {
      r := StartSubmit(storedToken);
      navigateTo := None;
      if r.Ok? {
        navigateTo := FinishSubmit(post(r.value));
      }
    }
  }
}
