/**
 * The decision logic of the `GoogleDrive` facade (googleservice/service/drive.js).
 * Every answer of the outside world -- the file system at construction time,
 * the Drive API's `files.create` and `files.get`, and the HEAD probe of the
 * public content URL -- is a parameter.
 */
module GoogleDrive {
  import opened Wrappers
  import opened JsValues
  import opened Promises

  // ---------------------------------------------------------------------------
  // Construction: the credential check and the authenticated client
  // ---------------------------------------------------------------------------

  /** What `require(path)` does with a file that exists: it yields its exports or throws. */
  datatype Loaded = Exports(value: JsValue) | LoadError(message: string)

  /** The files `fs.existsSync` can see, each with what `require` makes of it. */
  datatype FileSystem = FileSystem(files: map<string, Loaded>)

  datatype ConstructionError =
    | InvalidServiceKey          // the error thrown when no usable credential results
    | RequireFailed(message: string)

  const DriveScopes: seq<string> :=
    ["https://www.googleapis.com/auth/drive.file", "https://www.googleapis.com/auth/drive.resource"]

  /** The authenticated client handle: the credentials it was built from and its scopes. */
  datatype Facade = Facade(credentials: JsValue, scopes: seq<string>)

  /**
   * The credentials the constructor accepts: a string is a path, which must
   * exist and load to a truthy value; any other value of type "object" is used
   * as it is, `{}` and arrays included, as long as it is not `null`.
   */
  function ResolveCredentials(credential: JsValue, fs: FileSystem): (r: Result<JsValue, ConstructionError>)
    ensures r.Success? ==> Truthy(r.value)
    ensures r.Success? && !credential.Str? ==> r.value == credential
    ensures !credential.Str? ==> (r.Success? <==> IsObjectType(credential) && !credential.Null?)
    ensures credential.Str? ==>
      (r.Success? <==> credential.s in fs.files && fs.files[credential.s].Exports?
                       && Truthy(fs.files[credential.s].value))
    ensures credential.Str? && r.Success? ==> r.value == fs.files[credential.s].value
    ensures credential.Str? && credential.s in fs.files && fs.files[credential.s].LoadError? ==>
      r == Failure(RequireFailed(fs.files[credential.s].message))
    ensures r.Failure? && !(credential.Str? && credential.s in fs.files && fs.files[credential.s].LoadError?) ==>
      r.error == InvalidServiceKey
  {
    if credential.Str? then
      if credential.s !in fs.files then Failure(InvalidServiceKey)
      else match fs.files[credential.s]
        case LoadError(m) => Failure(RequireFailed(m))
        case Exports(v) => if Truthy(v) then Success(v) else Failure(InvalidServiceKey)
    else if IsObjectType(credential) && Truthy(credential) then Success(credential)
    else Failure(InvalidServiceKey)
  }

  /** `new GoogleDrive(credential)`: it fails exactly when the credential check does. */
  function Construct(credential: JsValue, fs: FileSystem): (r: Result<Facade, ConstructionError>)
    ensures r.Success? <==> ResolveCredentials(credential, fs).Success?
    ensures r.Success? ==> r.value.scopes == DriveScopes && Truthy(r.value.credentials)
    ensures r.Success? ==> r.value.credentials == ResolveCredentials(credential, fs).value
    ensures r.Failure? ==> r.error == ResolveCredentials(credential, fs).error
  {
    match ResolveCredentials(credential, fs)
    case Success(credentials) => Success(Facade(credentials, DriveScopes))
    case Failure(e) => Failure(e)
  }

  /** An empty object is accepted as a credential: the check asks only for a non-null object. */
  lemma EmptyObjectIsAccepted(fs: FileSystem)
    ensures Construct(Obj(map[]), fs) == Success(Facade(Obj(map[]), DriveScopes))
  {
  }

  // ---------------------------------------------------------------------------
  // The field projection of `create`
  // ---------------------------------------------------------------------------

  /**
   * The `fields` string sent with `files.create`. The test for "id" is a
   * substring test on the caller's text, not a test for a field named `id`.
   */
  function Fields(filter: JsValue): (r: string)
    ensures r == "*" || Includes(r, "id")
    ensures r == "*" <==> !filter.Str? && !filter.Arr?
  {
    match filter
    case Str(s) => if Includes(s, "id") then s else IncludesAtStart("id," + s, "id"); "id," + s
    case Arr(elems) =>
      var joined := ArrayJoin(elems);
      if Includes(joined, "id") then joined else IncludesAtStart("id," + joined, "id"); "id," + joined
    case _ => "*"
  }

  /** A string filter is kept when it contains "id" and gets an `id,` prefix otherwise. */
  lemma StringFilter(s: string)
    ensures Includes(s, "id") ==> Fields(Str(s)) == s
    ensures !Includes(s, "id") ==> Fields(Str(s)) == "id," + s
  {
  }

  /** A JavaScript array of the given strings. */
  function StrElems(fields: seq<string>): (elems: seq<JsValue>)
    ensures |elems| == |fields|
    ensures forall i :: 0 <= i < |fields| ==> elems[i] == Str(fields[i])
  {
    seq(|fields|, i requires 0 <= i < |fields| => Str(fields[i]))
  }

  /** An array of strings joins to its elements with commas between them, in order. */
  lemma ArrayOfStringsJoin(fields: seq<string>)
    ensures ArrayJoin(StrElems(fields)) == JoinWith(fields, ",")
  {
    var elems := StrElems(fields);
    var texts := seq(|elems|, i requires 0 <= i < |elems| =>
                     if IsNullish(elems[i]) then "" else ToText(elems[i]));
    assert texts == fields;
  }

  /**
   * An array filter becomes its comma-join, with `id,` in front only when the
   * join lacks "id".
   */
  lemma ArrayFilter(fields: seq<string>)
    ensures Includes(JoinWith(fields, ","), "id") ==> Fields(Arr(StrElems(fields))) == JoinWith(fields, ",")
    ensures !Includes(JoinWith(fields, ","), "id") ==> Fields(Arr(StrElems(fields))) == "id," + JoinWith(fields, ",")
  {
    ArrayOfStringsJoin(fields);
  }

  /** The array ["name", "size"] becomes "id,name,size". */
  lemma NameSizeArrayFilter()
    ensures Fields(Arr([Str("name"), Str("size")])) == "id,name,size"
  {
    var fields: seq<string> := ["name", "size"];
    var joined := JoinWith(fields, ",");
    assert joined == "name,size" by {
      assert JoinWith(fields[1..], ",") == "size";
      assert fields[1..] == ["size"];
    }
    MissingCharExcludes(joined, "id");
    ArrayFilter(fields);
    assert StrElems(fields) == [Str("name"), Str("size")];
  }

  /** No filter, or one that is neither a string nor an array, asks for every field. */
  lemma OtherFilterIsStar(filter: JsValue)
    requires !filter.Str? && !filter.Arr?
    ensures Fields(filter) == "*"
  {
  }

  /** The filter "name,size" becomes "id,name,size". */
  lemma NameSizeFilter()
    ensures Fields(Str("name,size")) == "id,name,size"
  {
    MissingCharExcludes("name,size", "id");
  }

  /**
   * The filter "width" contains the letters "id", so it is sent unchanged and
   * the API is not asked for the `id` field.
   */
  lemma WidthFilterKeepsNoIdField()
    ensures Fields(Str("width")) == "width"
  {
    assert OccursAt("width", "id", 1);
  }

  // ---------------------------------------------------------------------------
  // The payload: the guard of `create` and `bufferStream`
  // ---------------------------------------------------------------------------

  /**
   * The negation of the guard at the top of the executor: the file is truthy
   * and is a Buffer or has a truthy `data` or `buffer` property.
   */
  predicate HasPayload(file: JsValue) {
    Truthy(file) && (Truthy(Prop(file, "data")) || Truthy(Prop(file, "buffer")) || file.Buffer?)
  }

  /** The upload body: a ReadStream is passed on itself; anything else is written into a fresh PassThrough. */
  datatype Body = SameStream(stream: JsValue) | PassThrough(chunk: JsValue)

  /** Why an upload promise is rejected. */
  datatype Failure =
    | PropertyOfNullish(key: string)   // the TypeError of reading a property of null or undefined
    | RemoteFailure(reason: string)    // a rejection of the Drive API call

  /**
   * `bufferStream(file)`: a ReadStream comes back as it is; a Buffer is the
   * chunk; otherwise `file.buffer` if truthy, else `file.data`. Reading
   * `file.buffer` of null or undefined throws.
   */
  function BufferStream(file: JsValue): (r: Result<Body, Failure>)
    ensures file.ReadStream? ==> r == Success(SameStream(file))
    ensures r.Failure? <==> IsNullish(file)
    ensures r.Success? && !file.ReadStream? ==> r.value.PassThrough?
    ensures file.Buffer? ==> r == Success(PassThrough(file))
    ensures r.Success? && !file.Buffer? && !file.ReadStream? && Truthy(Prop(file, "buffer"))
      ==> r.value.chunk == Prop(file, "buffer")
    ensures r.Success? && !file.Buffer? && !file.ReadStream? && !Truthy(Prop(file, "buffer"))
      ==> r.value.chunk == Prop(file, "data")
  {
    if file.ReadStream? then Success(SameStream(file))
    else if file.Buffer? then Success(PassThrough(file))
    else if IsNullish(file) then Failure(PropertyOfNullish("buffer"))
    else
      var buffer := Prop(file, "buffer");
      Success(PassThrough(if Truthy(buffer) then buffer else Prop(file, "data")))
  }

  /**
   * The guard and the body agree: a file that passes the guard yields a
   * PassThrough of a truthy chunk, the Buffer itself or the `buffer`/`data`
   * property the guard found.
   */
  lemma PayloadOfAcceptedFile(file: JsValue)
    requires HasPayload(file)
    ensures BufferStream(file).Success? && BufferStream(file).value.PassThrough?
    ensures Truthy(BufferStream(file).value.chunk)
    ensures BufferStream(file).value.chunk in {file, Prop(file, "buffer"), Prop(file, "data")}
  {
  }

  /** A ReadStream never passes the guard, although `bufferStream` would pass it on. */
  lemma ReadStreamHasNoPayload(path: string)
    ensures !HasPayload(ReadStream(path))
    ensures BufferStream(ReadStream(path)) == Success(SameStream(ReadStream(path)))
  {
  }

  // ---------------------------------------------------------------------------
  // The content link
  // ---------------------------------------------------------------------------

  const DriveContentUrl := "https://drive.google.com/uc?id="

  /** What the HEAD probe (redirects not followed) answers: a status and the `location` header, or a thrown error. */
  datatype Probe = Responded(status: int, location: Option<string>) | ProbeFailed

  /** The redirection class of status codes, section 15.4 of RFC 9110. */
  predicate IsRedirection(status: int) {
    300 <= status < 400
  }

  /**
   * `driveUserContent(id)`: the `location` header for a 3xx answer (`null`
   * when the header is missing), the templated URL for any other status, and
   * `null` when the probe throws. It never throws.
   */
  function ContentLink(id: JsValue, probe: Probe): (r: Option<string>)
    ensures probe.ProbeFailed? ==> r == None
    ensures probe.Responded? && IsRedirection(probe.status) ==> r == probe.location
    ensures probe.Responded? && !IsRedirection(probe.status) ==> r == Some(DriveContentUrl + ToText(id))
    ensures r.None? <==> probe.ProbeFailed? || (IsRedirection(probe.status) && probe.location.None?)
  {
    var url := DriveContentUrl + ToText(id);
    match probe
    case ProbeFailed => None
    case Responded(status, location) => if IsRedirection(status) then location else Some(url)
  }

  /** A 302 with a location gives that location; a 200 gives the templated URL. */
  lemma ContentLinkExamples(id: string, location: string)
    ensures ContentLink(Str(id), Responded(302, Some(location))) == Some(location)
    ensures ContentLink(Str(id), Responded(200, None)) == Some("https://drive.google.com/uc?id=" + id)
  {
  }

  // ---------------------------------------------------------------------------
  // The upload result
  // ---------------------------------------------------------------------------

  const ResultKeys: seq<string> :=
    ["id", "name", "mimeType", "parents", "webViewLink", "thumbnailLink", "createdTime", "size", "shared"]

  const LinkKey := "webContentLink"

  /** `Object.fromEntries(keys.map(key => [key, data[key]]))`; a later entry overrides an earlier one. */
  function FromEntries(keys: seq<string>, data: JsValue): (m: map<string, JsValue>)
    requires !IsNullish(data)
    ensures m.Keys == set k | k in keys
    ensures forall k :: k in keys ==> m[k] == Prop(data, k)
  {
    if keys == [] then map[]
    else FromEntries(keys[..|keys| - 1], data)[keys[|keys| - 1] := Prop(data, keys[|keys| - 1])]
  }

  /** The JavaScript value of a resolved link: the URL string, or `null`. */
  function LinkValue(link: Option<string>): JsValue {
    match link
    case Some(url) => Str(url)
    case None => Null
  }

  /**
   * The object `create` resolves with: exactly the nine listed keys copied
   * from the response data (so every other field is dropped, and a missing one
   * is `undefined`), plus `webContentLink`.
   */
  function UploadResult(data: JsValue, link: Option<string>): (m: map<string, JsValue>)
    requires !IsNullish(data)
    ensures m.Keys == set k | k in ResultKeys + [LinkKey]
    ensures forall k :: k in ResultKeys ==> m[k] == Prop(data, k)
    ensures m[LinkKey] == LinkValue(link)
  {
    assert LinkKey !in ResultKeys;
    FromEntries(ResultKeys, data)[LinkKey := LinkValue(link)]
  }

  // ---------------------------------------------------------------------------
  // create
  // ---------------------------------------------------------------------------

  /** The parent folder every upload goes to. */
  const ParentFolderId := "1-sQEbClcbj6xmywa5XygM3wWfGCWWF69"

  /** What `files.create` answers: the response data, or a rejection. */
  datatype CreateAnswer = Created(data: JsValue) | CreateFailed(reason: string)

  /** The arguments `create` passes to `files.create`. */
  datatype CreateRequest = CreateRequest(name: string, parents: seq<string>, body: Body, fields: string)

  /**
   * How the promise returned by `create` settles. A file without a payload
   * settles it with `null`, whatever the API answers afterwards. Otherwise an
   * API rejection rejects it, and a successful answer fulfils it with the
   * projected result, whose link may be `null` but which is never `null`
   * itself.
   */
  function UploadOutcome(file: JsValue, api: CreateAnswer, probe: Probe): (r: Outcome<JsValue, Failure>)
    ensures !r.Pending?
    ensures !HasPayload(file) ==> r == Fulfilled(Null)
    ensures HasPayload(file) && api.CreateFailed? ==> r == Rejected(RemoteFailure(api.reason))
    ensures HasPayload(file) && api.Created? && IsNullish(api.data) ==> r == Rejected(PropertyOfNullish("id"))
    ensures HasPayload(file) && api.Created? && !IsNullish(api.data) ==>
      r == Fulfilled(Obj(UploadResult(api.data, ContentLink(Prop(api.data, "id"), probe))))
    ensures r.Fulfilled? && r.value != Null ==>
      && HasPayload(file) && api.Created? && r.value.Obj?
      && !IsNullish(api.data)
      && r.value.props.Keys == set k | k in ResultKeys + [LinkKey]
      && LinkKey in r.value.props
      && r.value.props[LinkKey] == LinkValue(ContentLink(Prop(api.data, "id"), probe))
      && forall k :: k in ResultKeys ==> k in r.value.props && r.value.props[k] == Prop(api.data, k)
  {
    if !HasPayload(file) then Fulfilled(Null)
    else match api
      case CreateFailed(reason) => Rejected(RemoteFailure(reason))
      case Created(data) =>
        if IsNullish(data) then Rejected(PropertyOfNullish("id"))
        else Fulfilled(Obj(UploadResult(data, ContentLink(Prop(data, "id"), probe))))
  }

  /**
   * `create(file, filter)`. The executor settles the promise with `null` when
   * the guard fails and then goes on: it still builds the body and, unless
   * that throws, issues `files.create`, whose answer leads to a second
   * `resolve` or `reject`. Only the first settle call counts.
   */
  method Create(file: JsValue, filter: JsValue, objectName: string, api: CreateAnswer, probe: Probe)
    returns (request: Option<CreateRequest>, outcome: Outcome<JsValue, Failure>)
    ensures outcome == UploadOutcome(file, api, probe)
    ensures request.None? <==> IsNullish(file)
    ensures request.Some? ==>
      request.value == CreateRequest(objectName, [ParentFolderId], BufferStream(file).value, Fields(filter))
  {
    var fields := Fields(filter);
    var promise := new Deferred<JsValue, Failure>();
    if !HasPayload(file) {
      promise.Resolve(Null);
    }
    var body := BufferStream(file);
    if body.Failure? {
      // a throw inside the executor rejects the promise
      promise.Reject(body.error);
      request := None;
    } else {
      request := Some(CreateRequest(objectName, [ParentFolderId], body.value, fields));
      match api {
        case CreateFailed(reason) =>
          promise.Reject(RemoteFailure(reason));
        case Created(data) =>
          if IsNullish(data) {
            // reading `response.data.id` throws; the rejection reaches `.catch(reject)`
            promise.Reject(PropertyOfNullish("id"));
          } else {
            var link := ContentLink(Prop(data, "id"), probe);
            var result := FromEntries(ResultKeys, data);
            result := result[LinkKey := LinkValue(link)];
            promise.Resolve(Obj(result));
          }
      }
    }
    outcome := promise.state;
  }

  /** Uploading a ReadStream settles with `null`: the guard refuses it before the body is looked at. */
  lemma ReadStreamUploadIsNull(path: string, api: CreateAnswer, probe: Probe)
    ensures UploadOutcome(ReadStream(path), api, probe) == Fulfilled(Null)
  {
    ReadStreamHasNoPayload(path);
  }

  /** An object with neither `data` nor `buffer` settles with `null`, whatever the API answers. */
  lemma EmptyObjectUploadIsNull(api: CreateAnswer, probe: Probe)
    ensures UploadOutcome(Obj(map[]), api, probe) == Fulfilled(Null)
  {
  }

  /**
   * A failed link probe does not fail the upload: it is fulfilled with the
   * full result, whose `webContentLink` is `null`.
   */
  lemma ProbeFailureKeepsResult(file: JsValue, data: JsValue)
    requires HasPayload(file) && !IsNullish(data)
    ensures var r := UploadOutcome(file, Created(data), ProbeFailed);
      r.Fulfilled? && r.value.Obj? && r.value.props[LinkKey] == Null
      && r.value.props["id"] == Prop(data, "id")
  {
    assert "id" in ResultKeys;
  }

  // ---------------------------------------------------------------------------
  // get
  // ---------------------------------------------------------------------------

  /** What `files.get` answers: the response data, or a rejection. */
  datatype GetAnswer = Fetched(data: JsValue) | GetFailed(reason: string)

  /** The arguments `get` passes to `files.get`: the caller's filter and the response type. */
  datatype GetRequest = GetRequest(params: JsValue, responseType: JsValue)

  /** `responseType ? responseType : "json"`. */
  function ResponseTypeOrDefault(responseType: JsValue): (r: JsValue)
    ensures Truthy(r)
    ensures Truthy(responseType) ==> r == responseType
    ensures !Truthy(responseType) ==> r == Str("json")
  {
    if Truthy(responseType) then responseType else Str("json")
  }

  /**
   * `get(filter, responseType)`: the filter goes to `files.get` as it is, with
   * the response type defaulted; the promise is fulfilled with the response
   * data or rejected with the API's failure, never turned into `null`.
   */
  method Get(filter: JsValue, responseType: JsValue, api: GetAnswer)
    returns (request: GetRequest, outcome: Outcome<JsValue, Failure>)
    ensures request == GetRequest(filter, ResponseTypeOrDefault(responseType))
    ensures api.Fetched? ==> outcome == Fulfilled(api.data)
    ensures api.GetFailed? ==> outcome == Rejected(RemoteFailure(api.reason))
  {
    var promise := new Deferred<JsValue, Failure>();
    var effectiveType := responseType;
    if !Truthy(effectiveType) {
      effectiveType := Str("json");
    }
    request := GetRequest(filter, effectiveType);
    match api {
      case Fetched(data) => promise.Resolve(data);
      case GetFailed(reason) => promise.Reject(RemoteFailure(reason));
    }
    outcome := promise.state;
  }
}
