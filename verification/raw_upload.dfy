/** `uploadingFile` (Server/controllers/upload.js): an uploaded file is turned
    into a base64 `data:` URI (section 3 of RFC 2397) and handed to the
    object store; the reply reports the stored URL or the failure. The object
    store's answer is a parameter. */
module RawUpload {
  import opened Js
  import opened Http
  import opened Text
  import Base64

  const Folder := "DeepVision"
  const ResourceType := "auto"

  /** The call made to the object store: what is uploaded and its options. */
  datatype StoreRequest = StoreRequest(file: string, resourceType: string, folder: string)

  /** What the object store's `upload` did: resolved with a result, or threw. */
  datatype StoreOutcome = Stored(secureUrl: string, publicId: string) | Threw(message: string)

  /** The JSON reply with its HTTP status; absent fields are `None`. */
  datatype Reply = Reply(
    status: int, success: bool, message: Option<string>,
    url: Option<string>, publicId: Option<string>, error: Option<string>)

  /** The store call made (if any) and the reply sent. */
  datatype Exchange = Exchange(request: Option<StoreRequest>, reply: Reply)

  function DataUriPrefix(mimeType: string): string
  {
    "data:" + mimeType + ";base64,"
  }

  /** `data:<mimetype>;base64,<payload>`: the media type is kept verbatim and
      the payload is the padded base 64 encoding of the whole buffer, so it is
      4 * ceil(n / 3) characters long and decodes back to the buffer. */
  function DataUri(mimeType: string, buffer: seq<byte>): (r: string)
    ensures StartsWith(r, DataUriPrefix(mimeType))
    ensures |r| == |DataUriPrefix(mimeType)| + 4 * ((|buffer| + 2) / 3)
    ensures Base64.Decode(r[|DataUriPrefix(mimeType)|..]) == Some(buffer)
  {
    var r := DataUriPrefix(mimeType) + Base64.Encode(buffer);
    assert r[|DataUriPrefix(mimeType)|..] == Base64.Encode(buffer);
    Base64.RoundTrip(buffer);
    r
  }

  /** The controller: no file gives 400 and no upload; otherwise exactly one
      upload of the data URI into folder "DeepVision" with resource type
      "auto", then 200 with the stored URL and id, or 500 with the message of
      whatever was thrown. */
  function UploadingFile(file: Option<UploadedFile>, store: StoreOutcome): (x: Exchange)
    ensures file.None? ==> x == Exchange(None, Reply(400, false, Some("No file uploaded"), None, None, None))
    ensures file.Some? ==> x.request == Some(StoreRequest(DataUri(file.value.mimeType, file.value.buffer), ResourceType, Folder))
    ensures x.reply.status in {200, 400, 500}
    ensures x.reply.success <==> x.reply.status == 200
    ensures x.reply.status == 200 <==> file.Some? && store.Stored?
    ensures x.reply.status == 200 ==> x.reply.url == Some(store.secureUrl) && x.reply.publicId == Some(store.publicId)
    ensures x.reply.status == 500 <==> file.Some? && store.Threw?
    ensures x.reply.status == 500 ==> x.reply.message == Some("Upload failed") && x.reply.error == Some(store.message)
  {
    match file
    case None => Exchange(None, Reply(400, false, Some("No file uploaded"), None, None, None))
    case Some(f) =>
      var request := StoreRequest(DataUri(f.mimeType, f.buffer), ResourceType, Folder);
      match store
      case Stored(secureUrl, publicId) =>
        Exchange(Some(request), Reply(200, true, None, Some(secureUrl), Some(publicId), None))
      case Threw(message) =>
        Exchange(Some(request), Reply(500, false, Some("Upload failed"), None, None, Some(message)))
  }
}
