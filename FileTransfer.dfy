/**
 * `FileTransferAPI`, the output-callback factory of the file transfer API
 * example: its configuration, `convert_to_dict` and
 * `serialize_test_record`, the two callback factories and the upload
 * callback itself.  The library calls it makes (record conversion, string
 * formatting, JSON encoding, the HTTP request) are given as the functions
 * of a `Collaborators` value.
 */
module FileTransfer {
  import opened Results
  import opened JsonValues
  import opened TestRecords
  import Inlining
  import Delivery

  const DEFAULT_SERVER_ADDRESS: string := "http://nw-db-04:46102"
  const ENDPOINT_PATH: string := "/api/logging/LogAdditionalDataRaw"
  const ALLOW_NAN_KEY: string := "allow_nan"

  /** The top-level keys left out when the record is converted for the path pattern. */
  const PATH_IGNORE_KEYS: seq<string> := ["code_info", "phases", "log_records"]

  const FILENAME_PATTERN_MESSAGE: string := "Must specify a filename_pattern."
  const FILEPATH_MESSAGE: string := "Must specify a filepath."

  /** The indent `save_to_disk` gives `OutputToJSON`. */
  const DISK_INDENT: nat := 2

  /** The library functions the factory calls, taken as given. */
  datatype Collaborators = Collaborators(
    // data.convert_to_base_types(record, json_safe=...)
    convert: (TestRecord, bool) -> ConvertedRecord,
    // data.convert_to_base_types(record, ignore_keys=...)
    convertIgnoring: (TestRecord, seq<string>) -> map<string, Json>,
    // util.format_string(pattern, record_dict); None where a placeholder names a missing key
    formatString: (string, map<string, Json>) -> Option<string>,
    // json.JSONEncoder(**kwargs).encode(tree)
    encode: (map<string, Json>, ConvertedRecord) -> string,
    // json.dumps(value)
    dumps: Json -> string,
    // httplib2.Http().request(uri=..., method=..., body=..., headers=...)
    request: Delivery.Request -> Delivery.Reply)

  datatype RuntimeError = RuntimeError(message: string)

  /** What can end an upload callback other than a normal return. */
  datatype CallbackError =
    | FormatError
    | InlineError(lookup: Inlining.LookupError)
    | UploadFailed(failure: Delivery.UploadFailedError)

  /** The closure `save_to_disk` returns.  It captures only the object: each
    * time it runs it writes through the object's current `outputToJson`,
    * so it carries nothing of its own. */
  datatype SaveToDiskCallback = SaveToDiskCallback

  /** The closure `upload` returns, which captures the object and its path pattern. */
  datatype UploadCallback = UploadCallback(pathPattern: string)

  /** The `OutputToJSON` writer that `save_to_disk` keeps. */
  datatype OutputToJson = OutputToJson(filenamePattern: string, inlineAttachments: bool, indent: nat)

  /** The upload endpoint: the server address followed by `ENDPOINT_PATH`. */
  function EndpointFor(serverAddress: string): (endpoint: string)
    ensures |endpoint| == |serverAddress| + |ENDPOINT_PATH|
    ensures endpoint[..|serverAddress|] == serverAddress
    ensures endpoint[|serverAddress|..] == ENDPOINT_PATH
  {
    serverAddress + ENDPOINT_PATH
  }

  /** The encoder options: the given keyword arguments, with `allow_nan`
    * added as `False` when it was not given. */
  function WithAllowNanDefault(kwargs: map<string, Json>): (options: map<string, Json>)
    ensures options.Keys == kwargs.Keys + {ALLOW_NAN_KEY}
    ensures forall key :: key in kwargs ==> options[key] == kwargs[key]
    ensures ALLOW_NAN_KEY !in kwargs ==> options[ALLOW_NAN_KEY] == Bool(false)
  {
    if ALLOW_NAN_KEY in kwargs then kwargs else kwargs[ALLOW_NAN_KEY := Bool(false)]
  }

  /** Whether conversion must be JSON-safe: exactly when `allow_nan` is false
    * under Python's truth test. */
  function JsonSafe(allowNan: Json): (safe: bool)
    ensures allowNan.Null? ==> safe
    ensures allowNan.Bool? ==> (safe <==> !allowNan.b)
    ensures allowNan.Int? ==> (safe <==> allowNan.i == 0)
    ensures allowNan.Str? ==> (safe <==> allowNan.s == "")
  {
    !Truthy(allowNan)
  }

  /** Conversion is JSON-safe unless `allow_nan` was supplied with a true value. */
  lemma JsonSafeUnlessAllowed(kwargs: map<string, Json>)
    ensures JsonSafe(WithAllowNanDefault(kwargs)[ALLOW_NAN_KEY]) <==>
      (ALLOW_NAN_KEY !in kwargs || !Truthy(kwargs[ALLOW_NAN_KEY]))
    ensures forall b :: ALLOW_NAN_KEY in kwargs && kwargs[ALLOW_NAN_KEY] == Bool(b) ==>
      (JsonSafe(WithAllowNanDefault(kwargs)[ALLOW_NAN_KEY]) <==> !b)
  {
  }

  /** A pattern the factories accept: one that is present and true under
    * Python's truth test, which for a string means non-empty. */
  function PatternGiven(pattern: Option<string>): (given: bool)
    ensures given <==> pattern.Some? && Truthy(Str(pattern.value))
  {
    pattern.Some? && pattern.value != ""
  }

  /** What `convert_to_dict` makes of a converted tree: the tree itself when
    * inlining is off, the inlined tree when every lookup resolves, and
    * `None` when a lookup fails. */
  function InlinedTree(tree: ConvertedRecord, record: TestRecord, inline: bool): (r: Option<ConvertedRecord>)
    ensures r.None? <==> inline && !Inlining.AllResolve(tree, record)
    ensures !inline ==> r == Some(tree)
    ensures r.Some? ==> r.value.fields == tree.fields && |r.value.phases| == |tree.phases|
    ensures r.Some? && inline ==> r.value == Inlining.Inlined(tree, record)
  {
    if !inline then Some(tree)
    else if Inlining.AllResolve(tree, record) then Some(Inlining.Inlined(tree, record))
    else None
  }

  class FileTransferApi {
    var endpoint: string
    var inlineAttachments: bool
    var allowNan: Json
    /** The keyword arguments the JSON encoder is built with. */
    var encoderOptions: map<string, Json>
    /** `self._output_to_json`, absent until `save_to_disk` sets it. */
    var outputToJson: Option<OutputToJson>

    /** The initialiser: `None` stands for an omitted server address, which
      * defaults to `DEFAULT_SERVER_ADDRESS`. */
    constructor (serverAddress: Option<string>, kwargs: map<string, Json>)
      ensures endpoint == EndpointFor(if serverAddress.Some? then serverAddress.value else DEFAULT_SERVER_ADDRESS)
      ensures inlineAttachments
      ensures encoderOptions == WithAllowNanDefault(kwargs)
      ensures allowNan == encoderOptions[ALLOW_NAN_KEY]
      ensures outputToJson == None
    {
      endpoint := EndpointFor(if serverAddress.Some? then serverAddress.value else DEFAULT_SERVER_ADDRESS);
      inlineAttachments := true;
      var options := WithAllowNanDefault(kwargs);
      allowNan := options[ALLOW_NAN_KEY];
      encoderOptions := options;
      outputToJson := None;
    }

    /** `convert_to_dict`: convert, then inline when `inline_attachments` is set. */
    method ConvertToDict(record: TestRecord, env: Collaborators) returns (r: Result<ConvertedRecord, Inlining.LookupError>)
      ensures var tree := env.convert(record, JsonSafe(allowNan));
        && (r.Ok? <==> InlinedTree(tree, record, inlineAttachments).Some?)
        && (r.Ok? ==> r.value == InlinedTree(tree, record, inlineAttachments).value)
        && (r.Err? ==> inlineAttachments && Inlining.IsFirstFailure(tree, record, r.error))
    {
      var tree := env.convert(record, !Truthy(allowNan));
      if inlineAttachments {
        r := Inlining.InlineAttachments(tree, record);
      } else {
        r := Ok(tree);
      }
    }

    /** `serialize_test_record`: the encoder's text of the converted tree. */
    method SerializeTestRecord(record: TestRecord, env: Collaborators) returns (r: Result<string, Inlining.LookupError>)
      ensures var tree := InlinedTree(env.convert(record, JsonSafe(allowNan)), record, inlineAttachments);
        && (r.Ok? <==> tree.Some?)
        && (r.Ok? ==> r.value == env.encode(encoderOptions, tree.value))
        && (r.Err? ==>
              && inlineAttachments
              && Inlining.IsFirstFailure(env.convert(record, JsonSafe(allowNan)), record, r.error))
    {
      var converted := ConvertToDict(record, env);
      match converted
      case Err(e) => r := Err(e);
      case Ok(tree) => r := Ok(env.encode(encoderOptions, tree));
    }

    /** `save_to_disk`: refuses a missing pattern before it touches anything,
      * otherwise keeps the `OutputToJSON` writer and returns its callback. */
    method SaveToDisk(filenamePattern: Option<string>) returns (r: Result<SaveToDiskCallback, RuntimeError>)
      modifies this`outputToJson
      ensures r.Ok? <==> PatternGiven(filenamePattern)
      ensures r.Err? ==> r.error == RuntimeError(FILENAME_PATTERN_MESSAGE) && outputToJson == old(outputToJson)
      ensures r.Ok? ==> outputToJson == Some(OutputToJson(filenamePattern.value, inlineAttachments, DISK_INDENT))
    {
      if !PatternGiven(filenamePattern) {
        return Err(RuntimeError(FILENAME_PATTERN_MESSAGE));
      }
      outputToJson := Some(OutputToJson(filenamePattern.value, inlineAttachments, DISK_INDENT));
      r := Ok(SaveToDiskCallback);
    }

    /** `upload`: refuses a missing pattern, otherwise returns the callback. */
    function Upload(pathPattern: Option<string>): (r: Result<UploadCallback, RuntimeError>)
      ensures r.Ok? <==> PatternGiven(pathPattern)
      ensures r.Ok? ==> r.value.pathPattern == pathPattern.value && r.value.pathPattern != ""
      ensures r.Err? ==> r.error == RuntimeError(FILEPATH_MESSAGE)
    {
      if PatternGiven(pathPattern) then Ok(UploadCallback(pathPattern.value))
      else Err(RuntimeError(FILEPATH_MESSAGE))
    }

    /** `upload_callback`: resolve the path, serialize the record, send the
      * envelope, check the status.  `sent` is the request made, if any. */
    method RunUploadCallback(callback: UploadCallback, record: TestRecord, env: Collaborators)
      returns (sent: Option<Delivery.Request>, r: Result<(), CallbackError>)
      ensures var filepath := env.formatString(callback.pathPattern, env.convertIgnoring(record, PATH_IGNORE_KEYS));
        var tree := InlinedTree(env.convert(record, JsonSafe(allowNan)), record, inlineAttachments);
        && (filepath.None? ==> sent.None? && r == Err(FormatError))
        && (filepath.Some? && tree.None? ==>
              && sent.None? && r.Err? && r.error.InlineError?
              && Inlining.IsFirstFailure(env.convert(record, JsonSafe(allowNan)), record, r.error.lookup))
        && (filepath.Some? && tree.Some? ==>
              var req := Delivery.UploadRequest(endpoint, filepath.value, env.encode(encoderOptions, tree.value), env.dumps);
              && sent == Some(req)
              && (r.Ok? <==> env.request(req).status == Delivery.SUCCESS_STATUS)
              && (r.Err? ==> r.error == UploadFailed(Delivery.UploadFailedError(env.request(req).content))))
    {
      var recordDict := env.convertIgnoring(record, PATH_IGNORE_KEYS);
      var filepath := env.formatString(callback.pathPattern, recordDict);
      if filepath.None? {
        return None, Err(FormatError);
      }
      var serialized := SerializeTestRecord(record, env);
      if serialized.Err? {
        return None, Err(InlineError(serialized.error));
      }
      var req := Delivery.UploadRequest(endpoint, filepath.value, serialized.value, env.dumps);
      var reply := env.request(req);
      sent := Some(req);
      match Delivery.CheckStatus(reply)
      case Ok(_) => r := Ok(());
      case Err(e) => r := Err(UploadFailed(e));
    }
  }
}
