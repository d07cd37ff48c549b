# GoogleDrive facade — a Dafny model

This project models the decision logic of the `GoogleDrive` facade
(`googleservice/service/drive.js`), a thin wrapper over the Google Drive v3
API that uploads a file into a fixed parent folder and fetches files back:

- the credential check of the constructor (a key path that must exist and
  load, or an inline object) and the scopes of the authenticated client;
- the `fields` projection string that `create` sends, built from a string
  filter, an array filter or nothing;
- the payload guard of `create` and `bufferStream`'s choice of upload body
  (a ReadStream as it is; otherwise a Buffer, `file.buffer` or `file.data`);
- `driveUserContent`, which turns a HEAD probe of
  `https://drive.google.com/uc?id=<id>` into a redirect target, the templated
  URL, or `null`; a 3xx status is the redirection class of section 15.4 of
  RFC 9110;
- the nine-key projection of the create response plus `webContentLink`;
- the promise that `create` returns, as a resolve-once cell: the executor
  calls `resolve(null)` on a missing payload without returning. For a file
  that is `null` or `undefined`, building the body then throws, and that
  throw is a `reject` the cell ignores; `files.create` is not called. For any
  other file without a payload the body is built and `files.create` is still
  called, and its answer makes a second `resolve` or `reject` call, which the
  cell ignores;
- `get`, whose `responseType` falls back to `"json"` and whose promise is
  fulfilled with the response data or rejected.

Everything the facade asks the outside world is a parameter of the model: the
file system seen by `fs.existsSync` and `require` (`FileSystem`), the answer
of `files.create` (`CreateAnswer`), the HEAD probe (`Probe`) and the answer of
`files.get` (`GetAnswer`). The upload's object name, derived from
`Date.now()`, is the parameter `objectName`; the parent folder id is the
constant `ParentFolderId`.

Files:

- `wrappers.dfy` — `Option` (with `None` for JavaScript's `null`) and `Result`.
- `js_values.dfy` — module `JsValues`: JavaScript values and the parts of
  their semantics the facade uses (truthiness, property reads, `typeof`,
  `String(v)`, `Array.prototype.join`, `String.prototype.includes`).
- `promises.dfy` — module `Promises`: promise outcomes, the fold of settle
  calls, and the class `Deferred`, a promise cell whose ghost history of
  settle calls always decides its state.
- `google_drive.dfy` — module `GoogleDrive`: the facade itself.

Behaviour of `drive.js` worth knowing, as the model states it:

- The "id" test of the projection is a substring test, so a filter such as
  `"width"` is sent without `id` (`WidthFilterKeepsNoIdField`).
- An empty inline credential `{}` (or an array) is accepted
  (`EmptyObjectIsAccepted`).
- A failed link probe does not turn the upload into `null`: the result is
  kept and its `webContentLink` is `null` (`ProbeFailureKeepsResult`).
- `get` rejects when the API call fails; it does not resolve to `null`.
- A missing payload settles the upload with `null`, but the executor goes on
  and still issues `files.create` unless building the body throws
  (`Create`'s `request` result).
- An empty Buffer counts as a payload: every object is truthy.
- A ReadStream is refused by the guard (it has no `data` or `buffer` and is
  not a Buffer), so uploading one settles with `null` even though
  `bufferStream` would pass it through (`ReadStreamUploadIsNull`).
- `file.buffer` is preferred over `file.data`; there is no other source.

## Model

| member | source | states |
|---|---|---|
| `JsValues.Truthy` | googleservice/service/drive.js:61 | a truthy value is never `null` or `undefined`, so reading its properties cannot throw |
| `JsValues.JoinWithAppend` | googleservice/service/drive.js:57 | joining a list split into two non-empty parts is the join of the front, one separator, and the join of the back |
| `JsValues.MissingCharExcludes` | googleservice/service/drive.js:57 | `includes` fails on a string lacking the last character of the searched text |
| `JsValues.IncludesAtStart` | googleservice/service/drive.js:57 | a string that starts with the searched text includes it |
| `Promises.Settle` | googleservice/service/drive.js:59-80 | a settle call always leaves the promise settled, and leaves an already settled promise unchanged |
| `Promises.SettledIsFinal` | googleservice/service/drive.js:61-79 | no sequence of later `resolve`/`reject` calls changes a settled promise |
| `Promises.FirstAttemptDecides` | googleservice/service/drive.js:59-80 | after any sequence of settle calls the outcome is the one the first call gives; with no call the promise is pending |
| `Promises.SettleAllAppend` | googleservice/service/drive.js:59-80 | settle calls made in two batches decide the same outcome as all of them in order |
| `Promises.Deferred.constructor` | googleservice/service/drive.js:59 | a new promise is pending and has seen no settle call |
| `Promises.Deferred.Resolve` | googleservice/service/drive.js:61 | `resolve(v)` is recorded, fulfils a pending promise with `v` and leaves a settled one as it was |
| `Promises.Deferred.Reject` | googleservice/service/drive.js:79 | `reject(e)` is recorded, rejects a pending promise with `e` and leaves a settled one as it was |
| `GoogleDrive.ResolveCredentials` | googleservice/service/drive.js:13-15 | a string credential is accepted exactly when the path exists, loads, and loads to a truthy value, which is then used; any other credential is accepted exactly when it is a non-null object, and is used as it is; an error thrown by `require` propagates as `RequireFailed` with its message; every other failure is the invalid-key error |
| `GoogleDrive.Construct` | googleservice/service/drive.js:13-19 | construction fails exactly when the credential check does, with its error; otherwise the client holds exactly the validated credentials (not the raw argument) and the two drive scopes |
| `GoogleDrive.EmptyObjectIsAccepted` | googleservice/service/drive.js:13-15 | `{}` is an accepted credential |
| `GoogleDrive.Fields` | googleservice/service/drive.js:57 | the projection is `"*"` exactly when the filter is neither a string nor an array, and otherwise includes "id" |
| `GoogleDrive.StringFilter` | googleservice/service/drive.js:57 | a string filter containing "id" is sent unchanged, any other gets the prefix `id,` |
| `GoogleDrive.ArrayOfStringsJoin` | googleservice/service/drive.js:57 | an array of strings joins to its elements separated by commas, in order |
| `GoogleDrive.ArrayFilter` | googleservice/service/drive.js:57 | an array filter becomes its comma-join, prefixed by `id,` only when the join lacks "id" |
| `GoogleDrive.NameSizeArrayFilter` | googleservice/service/drive.js:57 | `["name", "size"]` becomes `"id,name,size"` |
| `GoogleDrive.OtherFilterIsStar` | googleservice/service/drive.js:57 | an absent filter, or one that is neither a string nor an array, gives `"*"` |
| `GoogleDrive.NameSizeFilter` | googleservice/service/drive.js:57 | `"name,size"` becomes `"id,name,size"` |
| `GoogleDrive.WidthFilterKeepsNoIdField` | googleservice/service/drive.js:57 | `"width"` is sent unchanged, because it contains the letters "id" |
| `GoogleDrive.BufferStream` | googleservice/service/drive.js:28-33 | a ReadStream is the body itself; a Buffer is the chunk; otherwise the chunk is `file.buffer` if truthy, else `file.data`; the call throws exactly when the file is `null` or `undefined` |
| `GoogleDrive.PayloadOfAcceptedFile` | googleservice/service/drive.js:28-61 | a file that passes the guard gives a PassThrough body whose chunk is truthy and is the Buffer itself, `file.buffer` or `file.data` |
| `GoogleDrive.ReadStreamHasNoPayload` | googleservice/service/drive.js:29-61 | a ReadStream fails the guard although `bufferStream` would use it as the body |
| `GoogleDrive.ContentLink` | googleservice/service/drive.js:35-47 | a probe error gives `null`; a 3xx status gives the `location` header (`null` if absent); any other status gives the templated URL; so the link is `null` exactly on a probe error or a 3xx without location |
| `GoogleDrive.ContentLinkExamples` | googleservice/service/drive.js:37-43 | a 302 with a location gives that location; a 200 gives `https://drive.google.com/uc?id=` followed by the id |
| `GoogleDrive.FromEntries` | googleservice/service/drive.js:72-74 | the object built from the key list has exactly those keys, each mapped to the response's value for it |
| `GoogleDrive.UploadResult` | googleservice/service/drive.js:72-75 | the upload result has exactly the nine listed keys and `webContentLink`; the nine are copied from the response data, every other response field is dropped, and `webContentLink` is the resolved link or `null` |
| `GoogleDrive.UploadOutcome` | googleservice/service/drive.js:59-80 | the upload always settles; without a payload it is `null`; with one, an API rejection rejects it, nullish response data rejects it with the TypeError of reading `response.data.id`, and a successful create fulfils it with the projected result carrying the resolved link; so a non-null value is an object with the ten keys, copied from the create response |
| `GoogleDrive.Create` | googleservice/service/drive.js:55-80 | executing the executor's settle calls in program order through the promise cell gives the outcome `UploadOutcome` describes; `files.create` is requested unless the file is `null` or `undefined`, with the object name, the fixed parent, the selected body and the projection |
| `GoogleDrive.ReadStreamUploadIsNull` | googleservice/service/drive.js:61 | uploading a ReadStream settles with `null`, whatever the API answers |
| `GoogleDrive.EmptyObjectUploadIsNull` | googleservice/service/drive.js:61 | uploading `{}` settles with `null`, whatever the API answers |
| `GoogleDrive.ProbeFailureKeepsResult` | googleservice/service/drive.js:35-77 | when the link probe throws, the upload is still fulfilled with the projected result, whose `webContentLink` is `null` |
| `GoogleDrive.ResponseTypeOrDefault` | googleservice/service/drive.js:94 | the response type is always truthy: the caller's when truthy, `"json"` otherwise |
| `GoogleDrive.Get` | googleservice/service/drive.js:92-98 | `files.get` receives the caller's filter and the defaulted response type; the promise is fulfilled with the response data, or rejected with the API's failure |

## Left out

- The `googleapis` client (`GoogleAuth`, `files.create`, `files.get`), `fetch`, `fs.existsSync` and `require` are outside calls; the model takes their answers as parameters (`CreateAnswer`, `Probe`, `GetAnswer`, `FileSystem`).
- The check that the constructor was called with `new` (drive.js:11) is not modelled: in a CommonJS module without strict mode `this` is the global object, so the outcome depends on how the module is loaded.
- Asynchronous scheduling is not modelled: the settle calls of `create` are taken in the order the code makes them, and the effects of the still-issued `files.create` on the remote service are not modelled.
- The bytes that flow through `stream.PassThrough` and the upload itself are not modelled; the body is described by the value handed to `end`.
- `GoogleDrive.BufferStream`: does not model Node's refusal of a chunk that is neither a string nor a Buffer (for example `{ data: 5 }`), which throws inside the executor and would reject the upload.
- `GoogleDrive.Create`: the `.catch` at drive.js:77 is not modelled as a separate branch, because neither the link probe nor the projection can throw in this model.
- `JsValues.Prop`: only own properties of plain objects are modelled; arrays, Buffers and streams read as having no `data`, `buffer` or response keys (a Buffer's `.buffer` never matters: in `bufferStream` `Buffer.isBuffer` is checked before `file.buffer` is read, and in the guard of `create` the three terms are joined by `&&` and have no side effects, so a Buffer fails the guard's test whatever its `.buffer` is).
- Numbers are integers: `NaN`, `Infinity` and fractions are not modelled. `String` objects, typed arrays and getters are not modelled.
- `JsValues.ToText`: a Buffer's text is its bytes taken one character each, not a UTF-8 decoding; it matters only for a Buffer inside an array filter or as a response id.
- `GoogleDrive.UploadResult`: a map has no key order, so the insertion order of the result object's keys is not modelled.
- The keyed-hash helper `cyberhash/__init__.js` and its `Buffer.encode` patch are not part of this model: they are pass-throughs to Node's hash primitives.
