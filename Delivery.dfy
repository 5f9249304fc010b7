/**
 * The request the upload callback sends to the file transfer API and the
 * check it makes of the answer: a two-key JSON envelope, three fixed
 * headers, a POST to the configured endpoint, and status 200 as the only
 * success.
 */
module Delivery {
  import opened Results
  import opened JsonValues

  const FILEPATH_KEY: string := "filepath"
  const NEWLINE_KEY: string := "newline"
  const POST: string := "POST"
  const SUCCESS_STATUS: int := 200

  const USER_AGENT: string := "OpenHTFTestFileTransferAPIClient / v1.0.0"
  const CONTENT_TYPE: string := "application/json"
  const ACCEPT: string := "*/*"

  const HEADERS: map<string, string> := map[
    "User-Agent" := USER_AGENT,
    "Content-Type" := CONTENT_TYPE,
    "Accept" := ACCEPT
  ]

  /** What `httplib2.Http().request` is given. */
  datatype Request = Request(uri: string, verb: string, body: string, headers: map<string, string>)

  /** What it answers: the status of the response and its content. */
  datatype Reply = Reply(status: int, content: string)

  /** Raised with the response content when the upload is refused. */
  datatype UploadFailedError = UploadFailedError(content: string)

  /** The body dict of the upload: the destination path under `filepath`
    * and the serialised record under `newline`. */
  function Envelope(filepath: string, newline: string): (e: Json)
    ensures e.Obj? && e.fields.Keys == {FILEPATH_KEY, NEWLINE_KEY}
    ensures e.fields[FILEPATH_KEY] == Str(filepath) && e.fields[NEWLINE_KEY] == Str(newline)
  {
    Obj(map[FILEPATH_KEY := Str(filepath), NEWLINE_KEY := Str(newline)])
  }

  /** What the receiving side reads out of an envelope; `None` for any JSON
    * value that is not one. */
  function EnvelopeFields(j: Json): Option<(string, string)>
  {
    if j.Obj? && j.fields.Keys == {FILEPATH_KEY, NEWLINE_KEY}
       && j.fields[FILEPATH_KEY].Str? && j.fields[NEWLINE_KEY].Str?
    then Some((j.fields[FILEPATH_KEY].s, j.fields[NEWLINE_KEY].s))
    else None
  }

  /** The envelope has exactly the two keys, and both values are read back unchanged. */
  lemma EnvelopeRoundTrip(filepath: string, newline: string)
    ensures Envelope(filepath, newline).fields.Keys == {FILEPATH_KEY, NEWLINE_KEY}
    ensures EnvelopeFields(Envelope(filepath, newline)) == Some((filepath, newline))
  {
    assert FILEPATH_KEY != NEWLINE_KEY;
  }

  /** Every value read as an envelope is the envelope of what is read. */
  lemma EnvelopeFieldsInverse(j: Json)
    requires EnvelopeFields(j).Some?
    ensures Envelope(EnvelopeFields(j).value.0, EnvelopeFields(j).value.1) == j
  {
    var (f, n) := EnvelopeFields(j).value;
    assert Envelope(f, n).fields == j.fields;
  }

  /** The request of `upload_callback`; `dumps` stands for `json.dumps`. */
  function UploadRequest(endpoint: string, filepath: string, newline: string, dumps: Json -> string): (req: Request)
    ensures req.uri == endpoint && req.verb == POST && req.headers == HEADERS
    ensures exists e :: req.body == dumps(e) && EnvelopeFields(e) == Some((filepath, newline))
  {
    EnvelopeRoundTrip(filepath, newline);
    Request(endpoint, POST, dumps(Envelope(filepath, newline)), HEADERS)
  }

  /** The three headers are the only ones sent. */
  lemma HeadersFixed()
    ensures HEADERS.Keys == {"User-Agent", "Content-Type", "Accept"}
    ensures HEADERS["User-Agent"] == USER_AGENT
    ensures HEADERS["Content-Type"] == CONTENT_TYPE
    ensures HEADERS["Accept"] == ACCEPT
  {
  }

  /** The answer's check: only `SUCCESS_STATUS` succeeds, any other status
    * fails with the response content. */
  function CheckStatus(reply: Reply): (r: Result<(), UploadFailedError>)
    ensures r.Ok? <==> reply.status == SUCCESS_STATUS
    ensures r.Err? ==> r.error.content == reply.content
  {
    if reply.status != SUCCESS_STATUS then Err(UploadFailedError(reply.content)) else Ok(())
  }
}
