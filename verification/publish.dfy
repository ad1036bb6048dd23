/**
 * The request adapter of the registry's publish endpoints. Each handler reads
 * the route parameters and the body of a request and makes at most one
 * storage call. Only `addVersion`, `removeTarball` and `unPublishPackage`
 * report the call's outcome, to Express's `next` (and the CREATED status to
 * the response); the tarball upload reports nothing before its stream's
 * events, and `publishPackage` either refuses a star request without a call,
 * replaces a synchronous throw by BadPackageData, or hands the callback's
 * outcome on as pending. Storage is abstract: the handler is given how its
 * call turned out, and the reply records the call that was made.
 */
module Publish {
  import opened Options

  /** A JSON value, as a request body or an error object carries it. */
  datatype Json =
    | JNull
    | JBool(b: bool)
    | JNumber(n: int)
    | JString(s: string)
    | JArray(items: seq<Json>)
    | JObject(fields: map<string, Json>)

  /** The route parameters the router extracted, and the parsed body. */
  datatype Request = Request(params: map<string, string>, body: Json)

  /** `req.params[name]`: a parameter the route did not match reads as undefined. */
  function Param(req: Request, name: string): Option<string>
  {
    if name in req.params then Some(req.params[name]) else None
  }

  /** JavaScript truthiness of a value. */
  predicate Truthy(v: Json)
  {
    match v
    case JNull => false
    case JBool(b) => b
    case JNumber(n) => n != 0
    case JString(s) => s != ""
    case JArray(_) => true
    case JObject(_) => true
  }

  /** A value a storage callback reports as its error: only a truthy one counts. */
  type StorageError = e: Json | Truthy(e) witness JObject(map[])

  /** How a callback-style storage call turned out. */
  datatype StorageOutcome =
    | Completed                    // the callback was invoked without an error
    | Failed(error: StorageError)  // the callback was invoked with this error value
    | Threw(detail: Json)          // the call threw this exception synchronously

  /**
   * The error-first callback convention: `cb()`, or `cb(x)` with a falsy `x`,
   * reports success; `cb(e)` with a truthy `e` reports the failure `e`.
   */
  function CallbackOutcome(arg: Option<Json>): (outcome: StorageOutcome)
    ensures outcome.Completed? <==> arg.None? || !Truthy(arg.value)
    ensures outcome.Failed? <==> arg.Some? && Truthy(arg.value)
    ensures outcome.Failed? ==> arg == Some(outcome.error)
  {
    if arg.Some? && Truthy(arg.value) then Failed(arg.value) else Completed
  }

  /** How `storage.addTarball` turned out: it returns an upload stream or throws. */
  datatype OpenOutcome = StreamReturned | OpenThrew(detail: Json)

  /**
   * A storage call and the arguments it received. The arguments given to
   * `changePackage` and `addPackage` are not part of this model.
   */
  datatype StorageCall =
    | AddVersionCall(pkg: Option<string>, version: Option<string>, body: Json, tag: Option<string>)
    | AddTarballCall(pkg: Option<string>, filename: Option<string>)
    | RemoveTarballCall(pkg: Option<string>, filename: Option<string>, revision: Option<string>)
    | RemovePackageCall(pkg: Option<string>)
    | ChangePackageCall
    | AddPackageCall

  /** `HTTP_STATUS.CREATED`; its numeric value is not part of this model. */
  datatype Status = Created

  /** The message of an error the handler creates itself. */
  datatype Message =
    | BadPackageData     // `API_ERROR.BAD_PACKAGE_DATA`, whose text is not part of this model
    | Text(text: string)

  /** A value handed to `next`. */
  datatype NextArg =
    | Success(ok: string)            // `{ok: <message>}`
    | Forwarded(error: StorageError) // the storage's own error value
    | NewError(message: Message)     // `new Error(<message>)`

  /** What the tarball upload wires up on the request. */
  datatype Effect = PipeIntoStream | ListenOnRequest

  /**
   * Everything a handler does before it returns: the storage calls it made,
   * the status it set, the value it handed to `next`, the stream wiring, an
   * exception that escaped the handler, and a storage outcome handed on to a
   * continuation that is not part of this model.
   */
  datatype Reply = Reply(
    calls: seq<StorageCall>,
    status: Option<Status>,
    next: Option<NextArg>,
    effects: seq<Effect>,
    escaped: Option<Json>,
    pending: Option<StorageOutcome>)

  const PackagePublished := "package published"
  const TarballRemoved := "tarball removed"
  const PackageRemoved := "package removed"
  const StarNotImplemented := "npm star| un-star calls are not implemented"

  /**
   * The shared completion of the callback-style handlers: success sets
   * CREATED and hands `{ok: okMessage}` to `next`; an error is handed to
   * `next` as it is; a synchronous throw escapes the handler.
   */
  function Respond(call: StorageCall, outcome: StorageOutcome, okMessage: string): Reply
  {
    match outcome
    case Completed => Reply([call], Some(Created), Some(Success(okMessage)), [], None, None)
    case Failed(e) => Reply([call], None, Some(Forwarded(e)), [], None, None)
    case Threw(d) => Reply([call], None, None, [], Some(d), None)
  }

  /**
   * A reply reports exactly one outcome: either `next` received a value or an
   * exception escaped, and nothing is left to a continuation; CREATED is set
   * exactly when `next` received a success.
   */
  predicate ReportsOnce(r: Reply)
  {
    && (r.next.Some? <==> r.escaped.None?)
    && r.pending.None?
    && (r.status == Some(Created) <==> r.next.Some? && r.next.value.Success?)
  }

  /**
   * What an observer of the reply can tell about the storage outcome; the
   * inverse of the callback-style completion.
   */
  function ObservedOutcome(r: Reply): Option<StorageOutcome>
  {
    if r.escaped.Some? then Some(Threw(r.escaped.value))
    else if r.next.Some? && r.next.value.Forwarded? then Some(Failed(r.next.value.error))
    else if r.next.Some? && r.next.value.Success? && r.status == Some(Created) then Some(Completed)
    else None
  }

  /** `addVersion(storage)`: PUT of one version under a dist-tag. */
  function AddVersion(req: Request, outcome: StorageOutcome): (r: Reply)
    ensures r.calls == [AddVersionCall(Param(req, "package"), Param(req, "version"), req.body, Param(req, "tag"))]
    ensures outcome.Completed? <==> r.next == Some(Success(PackagePublished))
    ensures outcome.Completed? <==> r.status == Some(Created)
    ensures outcome.Failed? ==> r.next == Some(Forwarded(outcome.error))
    ensures r.next.Some? && r.next.value.Forwarded? ==> outcome == Failed(r.next.value.error)
    ensures outcome.Threw? ==> r.escaped == Some(outcome.detail)
    ensures r.escaped.Some? ==> outcome == Threw(r.escaped.value)
    ensures ReportsOnce(r) && r.effects == []
  {
    var call := AddVersionCall(Param(req, "package"), Param(req, "version"), req.body, Param(req, "tag"));
    Respond(call, outcome, PackagePublished)
  }

  /**
   * `uploadPackageTarball(storage)`: opens an upload stream for the package
   * and filename, pipes the request into it and listens on the request. The
   * outcome arrives later through stream events, so nothing is reported yet.
   */
  function UploadPackageTarball(req: Request, opening: OpenOutcome): (r: Reply)
    ensures r.calls == [AddTarballCall(Param(req, "package"), Param(req, "filename"))]
    ensures opening.StreamReturned? <==> PipeIntoStream in r.effects
    ensures opening.StreamReturned? <==> ListenOnRequest in r.effects
    ensures opening.OpenThrew? ==> r.escaped == Some(opening.detail)
    ensures r.escaped.Some? ==> opening == OpenThrew(r.escaped.value)
    ensures r.status.None? && r.next.None? && r.pending.None?
  {
    var call := AddTarballCall(Param(req, "package"), Param(req, "filename"));
    match opening
    case StreamReturned => Reply([call], None, None, [PipeIntoStream, ListenOnRequest], None, None)
    case OpenThrew(d) => Reply([call], None, None, [], Some(d), None)
  }

  /** `removeTarball(storage)`: DELETE of one tarball at a given revision. */
  function RemoveTarball(req: Request, outcome: StorageOutcome): (r: Reply)
    ensures r.calls == [RemoveTarballCall(Param(req, "package"), Param(req, "filename"), Param(req, "revision"))]
    ensures outcome.Completed? <==> r.next == Some(Success(TarballRemoved))
    ensures outcome.Completed? <==> r.status == Some(Created)
    ensures outcome.Failed? ==> r.next == Some(Forwarded(outcome.error))
    ensures r.next.Some? && r.next.value.Forwarded? ==> outcome == Failed(r.next.value.error)
    ensures outcome.Threw? ==> r.escaped == Some(outcome.detail)
    ensures r.escaped.Some? ==> outcome == Threw(r.escaped.value)
    ensures ReportsOnce(r) && r.effects == []
  {
    var call := RemoveTarballCall(Param(req, "package"), Param(req, "filename"), Param(req, "revision"));
    Respond(call, outcome, TarballRemoved)
  }

  /** `unPublishPackage(storage)`: removal of a whole package. */
  function UnPublishPackage(req: Request, outcome: StorageOutcome): (r: Reply)
    ensures r.calls == [RemovePackageCall(Param(req, "package"))]
    ensures outcome.Completed? <==> r.next == Some(Success(PackageRemoved))
    ensures outcome.Completed? <==> r.status == Some(Created)
    ensures outcome.Failed? ==> r.next == Some(Forwarded(outcome.error))
    ensures r.next.Some? && r.next.value.Forwarded? ==> outcome == Failed(r.next.value.error)
    ensures outcome.Threw? ==> r.escaped == Some(outcome.detail)
    ensures r.escaped.Some? ==> outcome == Threw(r.escaped.value)
    ensures ReportsOnce(r) && r.effects == []
  {
    Respond(RemovePackageCall(Param(req, "package")), outcome, PackageRemoved)
  }

  /** The route matched a `_rev` segment: the request updates an existing package. */
  predicate HasRouteRevision(req: Request)
  {
    "_rev" in req.params
  }

  /** The body is an npm star/un-star request: an object with a `users` field. */
  predicate IsStarRequest(body: Json)
  {
    body.JObject? && "users" in body.fields
  }

  /**
   * A synchronous throw from the package write is replaced by a generic
   * BadPackageData error. What follows the write's callback is not part of
   * this model: the callback's outcome is handed on as pending.
   */
  function WritePackage(call: StorageCall, outcome: StorageOutcome): Reply
  {
    if outcome.Threw? then Reply([call], None, Some(NewError(BadPackageData)), [], None, None)
    else Reply([call], None, None, [], None, Some(outcome))
  }

  /**
   * `publishPackage(storage)`: with a route-level `_rev` the package is
   * changed; otherwise a star request is refused before storage is touched;
   * otherwise the package is added.
   */
  function PublishPackage(req: Request, outcome: StorageOutcome): (r: Reply)
    ensures HasRouteRevision(req) ==> r.calls == [ChangePackageCall]
    ensures !HasRouteRevision(req) && IsStarRequest(req.body) ==>
      r.calls == [] && r.next == Some(NewError(Text(StarNotImplemented)))
    ensures !HasRouteRevision(req) && !IsStarRequest(req.body) ==> r.calls == [AddPackageCall]
    ensures |r.calls| > 0 && outcome.Threw? ==> r.next == Some(NewError(BadPackageData)) && r.pending.None?
    ensures |r.calls| > 0 && !outcome.Threw? ==> r.pending == Some(outcome) && r.next.None?
    ensures |r.calls| == 0 ==> r.pending.None?
    ensures r.escaped.None? && r.status.None? && r.effects == []
  {
    if HasRouteRevision(req) then WritePackage(ChangePackageCall, outcome)
    else if IsStarRequest(req.body) then Reply([], None, Some(NewError(Text(StarNotImplemented))), [], None, None)
    else WritePackage(AddPackageCall, outcome)
  }

  /**
   * The callback-style handlers lose nothing: the storage outcome, including
   * an error value verbatim, can be read back from the reply. In particular
   * distinct storage errors reach `next` as distinct values.
   */
  lemma OutcomeRecoverable(req: Request, outcome: StorageOutcome)
    ensures ObservedOutcome(AddVersion(req, outcome)) == Some(outcome)
    ensures ObservedOutcome(RemoveTarball(req, outcome)) == Some(outcome)
    ensures ObservedOutcome(UnPublishPackage(req, outcome)) == Some(outcome)
  {
  }

  /**
   * The callback-style handlers under the error-first convention: `cb()` or a
   * falsy argument yields CREATED and the handler's `{ok: ...}` message; a
   * truthy argument reaches `next` as the very same value, with no status.
   */
  lemma CallbackReplies(req: Request, arg: Option<Json>)
    ensures arg.None? || !Truthy(arg.value) ==>
      && AddVersion(req, CallbackOutcome(arg)).status == Some(Created)
      && AddVersion(req, CallbackOutcome(arg)).next == Some(Success(PackagePublished))
      && RemoveTarball(req, CallbackOutcome(arg)).status == Some(Created)
      && RemoveTarball(req, CallbackOutcome(arg)).next == Some(Success(TarballRemoved))
      && UnPublishPackage(req, CallbackOutcome(arg)).status == Some(Created)
      && UnPublishPackage(req, CallbackOutcome(arg)).next == Some(Success(PackageRemoved))
    ensures arg.Some? && Truthy(arg.value) ==>
      && AddVersion(req, CallbackOutcome(arg)).status.None?
      && AddVersion(req, CallbackOutcome(arg)).next == Some(Forwarded(arg.value))
      && RemoveTarball(req, CallbackOutcome(arg)).status.None?
      && RemoveTarball(req, CallbackOutcome(arg)).next == Some(Forwarded(arg.value))
      && UnPublishPackage(req, CallbackOutcome(arg)).status.None?
      && UnPublishPackage(req, CallbackOutcome(arg)).next == Some(Forwarded(arg.value))
  {
  }

  /**
   * The upload reply depends only on the `package` and `filename` route
   * parameters and on whether a stream came back: the body and every other
   * parameter are ignored.
   */
  lemma UploadDependsOnlyOnTarget(a: Request, b: Request, opening: OpenOutcome)
    requires Param(a, "package") == Param(b, "package")
    requires Param(a, "filename") == Param(b, "filename")
    ensures UploadPackageTarball(a, opening) == UploadPackageTarball(b, opening)
  {
  }

  /**
   * A star request without a route-level `_rev` gets the same reply whatever
   * else its body holds (its own `_rev` included) and whatever storage would
   * have done.
   */
  lemma StarRefusalIgnoresBody(a: Request, b: Request, oa: StorageOutcome, ob: StorageOutcome)
    requires !HasRouteRevision(a) && IsStarRequest(a.body)
    requires !HasRouteRevision(b) && IsStarRequest(b.body)
    ensures PublishPackage(a, oa) == PublishPackage(b, ob)
  {
  }

  /**
   * A synchronous throw during publishing never reaches `next` in any form
   * that carries its detail: whatever was thrown, the reply is the same.
   */
  lemma ThrowDetailHidden(req: Request, d1: Json, d2: Json)
    ensures PublishPackage(req, Threw(d1)) == PublishPackage(req, Threw(d2))
  {
  }
}
