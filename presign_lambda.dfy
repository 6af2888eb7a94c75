/**
 * The Lambda function that hands out presigned S3 upload URLs: it reads
 * the request body, requires a `filename`, asks S3 for a `put_object` URL
 * for that key, and maps every exception to status 500.
 *
 * `json.loads` and `generate_presigned_url` are parameters that may fail
 * with an exception message.  Response bodies are the JSON values the
 * handler passes to `json.dumps`.
 */
module PresignLambda {
  import opened Wrappers
  import opened JsonValues

  const EXPIRES_IN: int := 3600
  const CONTENT_TYPE: string := "image/jpeg"

  /** The arguments of one `generate_presigned_url` call. */
  datatype PresignRequest = PresignRequest(clientMethod: string, bucket: string, key: Json,
                                           contentType: string, expiresIn: int)

  datatype Response = Response(statusCode: int, body: Json)

  /**
   * The URL parameters the handler asks for when `filename` names the object.
   * The ensures only spell out the record; the properties are proved about Handler.
   */
  function RequestFor(bucket: string, filename: Json): (q: PresignRequest)
    ensures q.clientMethod == "put_object" && q.bucket == bucket && q.key == filename
    ensures q.contentType == CONTENT_TYPE && q.expiresIn == EXPIRES_IN
  {
    PresignRequest("put_object", bucket, filename, CONTENT_TYPE, EXPIRES_IN)
  }

  /**
   * The dictionary the handler reads `filename` from: `{}` for an absent or
   * falsy body, otherwise the parsed body, which must be a dictionary for
   * `.get` to exist.  Err carries the message of the exception raised.
   */
  function ParsedBody(event: map<string, Json>, loads: string -> Result<Json, string>)
    : (r: Result<map<string, Json>, string>)
    ensures !Truthy(Get(event, "body", JNull)) ==> r == Ok(map[])
    ensures Truthy(Get(event, "body", JNull)) && !Get(event, "body", JNull).JStr? ==> r.Err?
    ensures Truthy(Get(event, "body", JNull)) && Get(event, "body", JNull).JStr? ==>
            var parsed := loads(Get(event, "body", JNull).s);
            (r.Ok? <==> parsed.Ok? && parsed.value.JObj?)
            && (r.Ok? ==> r.value == parsed.value.fields)
            && (parsed.Err? ==> r == Err(parsed.error))
  {
    var body := Get(event, "body", JNull);
    if !Truthy(body) then Ok(map[])
    else if !body.JStr? then
      Err("the JSON object must be str, bytes or bytearray, not " + TypeName(body))
    else
      match loads(body.s)
      case Err(msg) => Err(msg)
      case Ok(v) =>
        if v.JObj? then Ok(v.fields)
        else Err("'" + TypeName(v) + "' object has no attribute 'get'")
  }

  function ErrorBody(message: string): Json
  {
    JObj(map["error" := JStr(message)])
  }

  /** `lambda_handler`; `bucket` is the `S3_BUCKET` environment variable. */
  function Handler(event: map<string, Json>, bucket: string,
                   loads: string -> Result<Json, string>,
                   presign: PresignRequest -> Result<string, string>): (r: Response)
    ensures r.statusCode in {200, 400, 500}
    ensures r.statusCode == 500 <==>
            ParsedBody(event, loads).Err?
            || (Truthy(Get(ParsedBody(event, loads).value, "filename", JNull))
                && presign(RequestFor(bucket, Get(ParsedBody(event, loads).value, "filename", JNull))).Err?)
    ensures r.statusCode == 400 <==>
            ParsedBody(event, loads).Ok? && !Truthy(Get(ParsedBody(event, loads).value, "filename", JNull))
    ensures r.statusCode == 400 ==> r.body == ErrorBody("filename required")
    ensures r.statusCode == 200 ==>
            var filename := Get(ParsedBody(event, loads).value, "filename", JNull);
            presign(RequestFor(bucket, filename)).Ok?
            && r.body == JObj(map["presigned_url" := JStr(presign(RequestFor(bucket, filename)).value)])
    ensures r.statusCode == 500 ==> r.body.JObj? && r.body.fields.Keys == {"error"}
  {
    match ParsedBody(event, loads)
    case Err(msg) => Response(500, ErrorBody(msg))
    case Ok(bodyJson) =>
      var filename := Get(bodyJson, "filename", JNull);
      if !Truthy(filename) then Response(400, ErrorBody("filename required"))
      else
        match presign(RequestFor(bucket, filename))
        case Err(msg) => Response(500, ErrorBody(msg))
        case Ok(url) => Response(200, JObj(map["presigned_url" := JStr(url)]))
  }

  /** A request without a body, or with an empty one, is answered 400. */
  lemma MissingBodyIsBadRequest(event: map<string, Json>, bucket: string,
                                loads: string -> Result<Json, string>,
                                presign: PresignRequest -> Result<string, string>)
    requires "body" !in event || event["body"] == JNull || event["body"] == JStr("")
    ensures Handler(event, bucket, loads, presign) == Response(400, ErrorBody("filename required"))
  {
    assert ParsedBody(event, loads) == Ok(map[]);
  }

  /** An empty-string filename is as good as none. */
  lemma EmptyFilenameIsBadRequest(event: map<string, Json>, bucket: string,
                                  loads: string -> Result<Json, string>,
                                  presign: PresignRequest -> Result<string, string>)
    requires ParsedBody(event, loads).Ok? && Get(ParsedBody(event, loads).value, "filename", JNull) == JStr("")
    ensures Handler(event, bucket, loads, presign).statusCode == 400
  {
  }

  /** A body that does not parse as JSON is answered 500 with the parser's message. */
  lemma UnparsableBodyIsServerError(event: map<string, Json>, bucket: string,
                                    loads: string -> Result<Json, string>,
                                    presign: PresignRequest -> Result<string, string>)
    requires "body" in event && event["body"].JStr? && event["body"].s != ""
    requires loads(event["body"].s).Err?
    ensures Handler(event, bucket, loads, presign) == Response(500, ErrorBody(loads(event["body"].s).error))
  {
  }

  /** A well-formed request with a string filename gets the URL S3 signs for exactly that key. */
  lemma ValidRequestGetsUrl(event: map<string, Json>, bucket: string, name: string,
                            loads: string -> Result<Json, string>,
                            presign: PresignRequest -> Result<string, string>)
    requires "body" in event && event["body"].JStr? && event["body"].s != ""
    requires loads(event["body"].s).Ok? && loads(event["body"].s).value.JObj?
    requires Get(loads(event["body"].s).value.fields, "filename", JNull) == JStr(name) && name != ""
    requires presign(PresignRequest("put_object", bucket, JStr(name), "image/jpeg", 3600)).Ok?
    ensures Handler(event, bucket, loads, presign)
         == Response(200, JObj(map["presigned_url" :=
                JStr(presign(PresignRequest("put_object", bucket, JStr(name), "image/jpeg", 3600)).value)]))
  {
    assert RequestFor(bucket, JStr(name)) == PresignRequest("put_object", bucket, JStr(name), "image/jpeg", 3600);
  }
}
