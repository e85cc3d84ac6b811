/** `enhanceImage` (Server/controllers/enhancementController.js): forwards an
    uploaded image to the remote enhancement service and classifies what came
    back into one HTTP reply. The remote call itself is a parameter: the
    outcome the HTTP client produced. */
module Enhancement {
  import opened Js
  import opened Http
  import opened Text

  const PublicAiUrl := "https://underwater-enhancer-service-997612821032.asia-south1.run.app"
  const AiApiUrl := PublicAiUrl + "/upload"
  const ViewBaseUrl := PublicAiUrl + "/view"
  /** The client-side timeout of the forwarding call, in milliseconds. */
  const TimeoutMs := 90000
  const DefaultServiceError := "An unknown error occurred in the AI service."

  /** One part of the multipart form sent upstream. */
  datatype FormPart = FormPart(field: string, content: seq<byte>, filename: string, contentType: string)

  /** The POST sent to the enhancement service. */
  datatype RemoteRequest = RemoteRequest(url: string, form: seq<FormPart>, timeoutMs: nat)

  /** The JSON body of a 2xx answer. `NullData` is a body that is null or
      missing, on which reading a field throws. `success` is the truthiness of
      the field; `outputFile` and `error` may be absent. */
  datatype ServiceData =
    | NullData
    | Body(success: bool, outputFile: Option<string>, error: Option<string>)

  /** How the HTTP client's call ended: a 2xx answer; an error answer (non-2xx,
      `error.response` set); a request sent but never answered (`error.request`
      set: time-out, connection loss); or a failure before anything was sent. */
  datatype ServiceOutcome =
    | Answered(data: ServiceData)
    | ErrorAnswer(status: int, body: string)
    | NoAnswer
    | NotSent(reason: string)

  /** The JSON reply of the controller with its HTTP status. `upstreamError`
      is the `error` field, which carries the service's error body. */
  datatype Reply = Reply(status: int, message: string, enhancedImageUrl: Option<string>, upstreamError: Option<string>)

  /** The call made upstream (if any) and the reply sent to the caller. */
  datatype Exchange = Exchange(request: Option<RemoteRequest>, reply: Reply)

  /** The address at which the service shows an output file. An absent
      `output_file` prints as "undefined" in the template. */
  function ViewUrl(outputFile: Option<string>): (r: string)
    ensures StartsWith(r, ViewBaseUrl + "/")
    ensures r[|ViewBaseUrl + "/"|..] == Interpolate(outputFile)
  {
    ViewBaseUrl + "/" + Interpolate(outputFile)
  }

  /** The form sent upstream: a single part named `file` carrying the
      uploaded bytes under their original name and MIME type. */
  function Form(f: UploadedFile): (form: seq<FormPart>)
    ensures |form| == 1 && form[0].field == "file"
    ensures form[0].content == f.buffer && form[0].filename == f.originalName && form[0].contentType == f.mimeType
  {
    [FormPart("file", f.buffer, f.originalName, f.mimeType)]
  }

  /** The reply for a call that was made, by how it ended. */
  function Classify(outcome: ServiceOutcome): (reply: Reply)
    ensures reply.status in {200, 500, 504}
    ensures reply.status == 200 <==> outcome.Answered? && outcome.data.Body? && outcome.data.success
    ensures reply.status == 504 <==> outcome.NoAnswer?
    ensures reply.enhancedImageUrl.Some? <==> reply.status == 200
    ensures reply.status == 200 ==> reply.enhancedImageUrl == Some(ViewUrl(outcome.data.outputFile))
    ensures reply.upstreamError.Some? <==> outcome.ErrorAnswer?
    ensures outcome.ErrorAnswer? ==> reply.status == 500 && reply.upstreamError == Some(outcome.body)
  {
    match outcome
    case Answered(Body(true, outputFile, _)) =>
      Reply(200, "Enhancement successful.", Some(ViewUrl(outputFile)), None)
    case Answered(Body(false, _, error)) =>
      Reply(500, Or(error, DefaultServiceError), None, None)
    case Answered(NullData) =>
      // reading `response.data.error` throws a TypeError inside the `try`; it
      // carries neither `response` nor `request`, so the last branch answers
      Reply(500, "Failed to create the request to the AI service.", None, None)
    case ErrorAnswer(_, body) =>
      Reply(500, "The AI enhancement service failed to process the request.", None, Some(body))
    case NoAnswer =>
      Reply(504, "No response from AI service (Gateway Timeout).", None, None)
    case NotSent(_) =>
      Reply(500, "Failed to create the request to the AI service.", None, None)
  }

  /** The controller: without an uploaded file, 400 and no upstream call;
      with one, exactly one upstream POST of that file, and the reply
      classified from its outcome. */
  function EnhanceImage(file: Option<UploadedFile>, outcome: ServiceOutcome): (x: Exchange)
    ensures file.None? ==> x == Exchange(None, Reply(400, "No image file uploaded.", None, None))
    ensures file.Some? ==> x.request == Some(RemoteRequest(AiApiUrl, Form(file.value), TimeoutMs))
    ensures x.reply.status in {200, 400, 500, 504}
    ensures x.reply.status == 400 <==> file.None?
  {
    match file
    case None => Exchange(None, Reply(400, "No image file uploaded.", None, None))
    case Some(f) => Exchange(Some(RemoteRequest(AiApiUrl, Form(f), TimeoutMs)), Classify(outcome))
  }

  /** A 2xx answer without a truthy `success` is a 500 whose message is the
      service's `error` when that is a non-empty string, the default text
      otherwise. */
  lemma {:induction false} StructuredFailure(f: UploadedFile, outputFile: Option<string>, error: Option<string>)
    ensures var reply := EnhanceImage(Some(f), Answered(Body(false, outputFile, error))).reply;
      reply.status == 500 && reply.enhancedImageUrl.None?
      && (Truthy(error) ==> reply.message == error.value)
      && (!Truthy(error) ==> reply.message == DefaultServiceError)
  {
  }

  /** Different output files are shown at different addresses. */
  lemma {:induction false} ViewUrlInjective(a: string, b: string)
    requires ViewUrl(Some(a)) == ViewUrl(Some(b))
    ensures a == b
  {
    assert a == ViewUrl(Some(a))[|ViewBaseUrl + "/"|..];
  }
}
