# Publish endpoints and route-parameter coverage of a package registry

This project models two small pieces of the verdaccio package registry in Dafny.

1. **The publish-endpoint request adapter** (module `Publish`). There are five Express handlers:
   `addVersion`, `uploadPackageTarball`, `removeTarball`, `unPublishPackage` and `publishPackage`.
   Each one reads route parameters and the request body and makes at most one storage call.
   - `addVersion`, `removeTarball` and `unPublishPackage` report the call's outcome. Success sets
     `HTTP_STATUS.CREATED` and passes `{ok: <message>}` to `next`. A failure is passed to `next`
     unchanged.
   - `uploadPackageTarball` reports nothing before the upload stream's own events.
   - `publishPackage` refuses a star request without calling storage. A synchronous throw from its
     storage call becomes a BadPackageData error. Otherwise it hands the storage callback's outcome
     to a continuation that is not part of this model.

   The handlers' own source is not part of this model. Their behaviour is taken from the unit
   tests in `test/unit/api/api.publish.spec.js`.
   Storage is abstract. Each handler is a pure function of the request and of how its storage call
   turned out: `Completed`, `Failed(error)` or `Threw(detail)`. Following the error-first callback
   convention the tests use (`cb()` for success, `cb(error)` for failure), only a truthy callback
   argument is a failure. It returns a `Reply` that records:
   - the storage calls made, with their arguments;
   - the status set, if any;
   - the value handed to `next`, if any;
   - the stream wiring;
   - an exception that escaped the handler, if any;
   - a storage outcome handed on to the unmodelled continuation, if any (`pending`).
2. **The route-parameter coverage check** (modules `RouteParams` and `Text`). This is the kernel of
   `test/unit/validate_all.js`. For each registration it:
   - skips the registration if its verb is `set`;
   - strips the quotes from the path and splits the path on `/`;
   - marks every segment of an `app.param` registration `'ok'`;
   - for every other registration, records each `:name` or `:name?` segment against the first route
     that used it, unless the name already has an entry.

   The check then yields one verdict per key. A verdict passes when the key's value is `'ok'`.
   `RouteParamsExamples` works one concrete scan through the model.

How the handlers are read, where the tests leave room:
- `publishPackage` checks the route-level `_rev` parameter first. If it is present, the handler
  calls `changePackage`. Otherwise a body with a `users` field is refused with
  `npm star| un-star calls are not implemented`. Otherwise the handler calls `addPackage`.
  "Present" means the route matched the parameter, and "has a `users` field" means the body is an
  object with that key.
- The tests only show `addPackage` throwing. Here a throw from either `changePackage` or
  `addPackage` becomes BadPackageData. This assumes the handler's catch covers the whole dispatch.
- The tests pass plain objects such as `{message: 'failure'}` as storage errors. In the model a
  storage error is any truthy JSON value, and it is forwarded as it is.
- Nothing shows the other four handlers catching exceptions. When their storage call throws, the
  exception escapes (`Reply.escaped`).
- `HTTP_STATUS.CREATED` is modelled as `Status.Created`. `API_ERROR.BAD_PACKAGE_DATA` is modelled as
  `Message.BadPackageData`. Both stay opaque, because their values are defined outside these files.
- In the coverage check, the source stores the route's trimmed source text (`m[0].trim()`). The
  model stores the registration itself (`Entry.FirstUse`). That text is never empty and never
  `'ok'`, so `params[name] || …` means "if the name has no entry yet".

## Model

| member | source | states |
|---|---|---|
| `Publish.AddVersion` | test/unit/api/api.publish.spec.js:30-61 | `storage.addVersion` receives the request's `package`, `version`, body and `tag` unchanged. CREATED is set and `next` gets `{ok: 'package published'}` exactly when the call succeeds. An error reaches `next` as the same value, and a throw escapes. Exactly one outcome is reported. |
| `Publish.UploadPackageTarball` | test/unit/api/api.publish.spec.js:86-103 | `storage.addTarball` receives the request's `package` and `filename`. When a stream comes back, the request is piped into it and a listener is registered on the request. No status and no `next` value are reported before the stream's own events. |
| `Publish.RemoveTarball` | test/unit/api/api.publish.spec.js:126-155 | `storage.removeTarball` receives `package`, `filename` and `revision` unchanged. Success gives CREATED and `{ok: 'tarball removed'}`. A failure gives `next(error)` with the same error value. |
| `Publish.UnPublishPackage` | test/unit/api/api.publish.spec.js:176-203 | `storage.removePackage` receives `package`. Success gives CREATED and `{ok: 'package removed'}`. A failure forwards the error unchanged. |
| `Publish.PublishPackage` | test/unit/api/api.publish.spec.js:227-263 | With a route-level `_rev` the handler calls `changePackage`. Without one, a star body is refused with the exact star message and no storage call. Otherwise it calls `addPackage`. A synchronous throw from that call gives `new Error(BAD_PACKAGE_DATA)` and nothing pending. Any other outcome of the call, success or failure, is handed on unchanged as pending. |
| `Publish.CallbackReplies` | test/unit/api/api.publish.spec.js:30-61 | Under the error-first convention, `addVersion`, `removeTarball` and `unPublishPackage` answer `cb()` or a falsy argument with CREATED and their exact `{ok: ...}` message. A truthy `cb(e)` reaches `next` as `e` itself, with no status set. The tests call `cb()` at lines 37, 132 and 180, and `cb(error)` at lines 54, 148 and 196. |
| `Publish.UploadDependsOnlyOnTarget` | test/unit/api/api.publish.spec.js:86-103 | Two requests with the same `package` and `filename` get the same upload reply, whatever their bodies and other parameters hold. |
| `Publish.OutcomeRecoverable` | test/unit/api/api.publish.spec.js:30-61 | For `addVersion`, `removeTarball` and `unPublishPackage`, the storage outcome can be read back from the reply. Success, the exact error value, or the thrown value is recovered, so no information is lost and distinct errors reach `next` as distinct values. |
| `Publish.StarRefusalIgnoresBody` | test/unit/api/api.publish.spec.js:257-263 | Take any two star requests without a route `_rev`, whatever else their bodies hold (their own `_rev` included). They get identical replies, whatever storage would have done. |
| `Publish.ThrowDetailHidden` | test/unit/api/api.publish.spec.js:247-255 | The reply to a synchronous throw during publishing does not depend on what was thrown. |
| `Text.Split` | test/unit/validate_all.js:25 | `split('/')` returns at least one piece. No piece contains the separator. Joining the pieces with the separator gives back the input. |
| `Text.SplitJoin` | test/unit/validate_all.js:25 | Splitting a join of separator-free pieces returns exactly those pieces. Together with `Split`'s contract, this makes split and join inverses. |
| `Text.JoinInjective` | test/unit/validate_all.js:25 | Two lists of separator-free pieces with the same join are the same list. This is why the split is unique. |
| `Text.Unquote` | test/unit/validate_all.js:22 | `slice(1, length-1)` drops exactly the first and the last character. A string shorter than two characters gives `""`. |
| `Text.UnquoteQuoted` | test/unit/validate_all.js:22 | Unquoting a path wrapped in two quote characters gives the path back. |
| `RouteParams.ParamName` | test/unit/validate_all.js:26 | A captured name contains neither `:` nor `?`. The segment is `:` followed by the name, with at most one trailing `?`. |
| `RouteParams.ParamNamePattern` | test/unit/validate_all.js:26-31 | A segment yields name `n` if and only if it is `:` + `n` or `:` + `n` + `?`, and `n` contains neither `:` nor `?`. Plain, `-`, `*` and similar segments yield nothing. |
| `RouteParams.VisitAllKey` | test/unit/validate_all.js:25-31 | One registration's segment loop: `param` segments are written `'ok'` under their raw text. Route parameters are written only when the name has no entry yet. Other entries are untouched. |
| `RouteParams.RegisterKey` | test/unit/validate_all.js:20-31 | One registration: `set` calls change nothing. A key gains or keeps `'ok'` exactly when the registration validates it. A first route use stores that route. Existing entries change only by becoming `'ok'`. |
| `RouteParams.CollectKeyPresent` | test/unit/validate_all.js:19-33 | After the scan, a key is in `params` exactly when some registration mentions it: an `app.param` segment, or a route parameter of a route. |
| `RouteParams.CollectKeyValidated` | test/unit/validate_all.js:19-33 | After the scan, a key's value is `'ok'` exactly when some `app.param` registration, anywhere in the scan, has a segment equal to it. |
| `RouteParams.CollectKeyFirstUse` | test/unit/validate_all.js:29-30 | After the scan, a key whose value is not `'ok'` holds the first route, in source order, that used it. |
| `RouteParams.Verdicts` | test/unit/validate_all.js:35-38 | There is one check per key of the `params` object, and a check passes exactly when the stored value is `'ok'`. |
| `RouteParams.VerdictExists` | test/unit/validate_all.js:35-38 | A check exists for a name exactly when some registration mentions the name. |
| `RouteParams.VerdictPasses` | test/unit/validate_all.js:19-38 | A name's check passes exactly when some `app.param` registration validates the name. |
| `RouteParams.VerdictsOrderIndependent` | test/unit/validate_all.js:19-38 | Any reordering of the registrations produces the same verdicts. |
| `RouteParams.SetCallsIgnored` | test/unit/validate_all.js:20 | Inserting an `app.set` registration anywhere leaves the `params` object unchanged. |
| `RouteParamsExamples.ExampleScan` | test/unit/validate_all.js:19-38 | `app.param('package')` followed by `app.get('/:package/:version?')` gives exactly two checks. `package` passes and `version` fails. |

## Left out

- The storage engine is not part of this model. That covers revision compare-and-swap, version conflicts, tarball commit atomicity and removal of attachments. The tests replace it with mocks, so its outcome is an input here.
- Stream piping, backpressure, and the `end`/`close`/`success`/`error` event wiring of the tarball upload are event-loop I/O. The model records only that the request was piped and listened on.
- The arguments given to `changePackage` and `addPackage` live in snapshot files that are not part of this model, so those calls are recorded without arguments.
- The numeric value of `HTTP_STATUS.CREATED` and the text of `API_ERROR.BAD_PACKAGE_DATA` are defined in `src/lib/constants`, which is not part of this model.
- Reading the application files from disk, and the regular-expression scan of their source text for `app.<verb>('<path>',` calls, are left out. The list of `(verb, quoted path)` pairs is the input.
- In the coverage check, `params` is a JavaScript object. For inherited names such as `constructor` or `toString`, `params[name] || …` reads the inherited function and writes it back as an own key, so a check still exists and fails, as in the model. The one divergence is `__proto__`: writing it goes through the prototype setter and creates no key, so the source produces no check for it. The model gives it a check, which fails unless an `app.param('__proto__')` registration validates it.
- `Object.keys` ordering of the generated checks, and the registration of test cases with `describe`/`it`, are test-harness plumbing. The verdicts are a map from name to pass/fail.
- Publish.PublishPackage: what happens after `changePackage` or `addPackage` reports back through its callback is not shown in the tests. The reply records that outcome as `pending` and states nothing about the status or the value eventually handed to `next`.
- Publish.PublishPackage: takes the route `_rev` as present when the route matched it, instead of modelling JavaScript truthiness of an empty string.
