/** The image enhancement page (Client/src/pages/Home.jsx): which picked
    files it accepts, and the state that picking a file and pressing
    "enhance" change. The direct call to the enhancement service is a
    parameter: how it ended. */
module HomePage {
  import opened Js
  import opened Text
  import Enhancement

  /** The largest accepted image: 16 MiB. */
  const MaxImageBytes := 16 * 1024 * 1024

  const ServiceBase := "https://underwater-enhancer-service-997612821032.asia-south1.run.app"
  /** The address the page posts the image to, bypassing its own server. */
  const DirectUploadUrl := ServiceBase + "/upload"
  const DefaultError := "Direct API call failed."

  /** A file picked in the browser. */
  datatype PickedFile = PickedFile(name: string, mimeType: string, size: nat)

  /** Why a picked file is refused, or that it is taken. */
  datatype FileCheck = NotAnImage | TooLarge | Accepted

  /** The acceptance rule: an `image/` type and at most 16 MiB. */
  predicate AcceptsImage(f: PickedFile)
  {
    StartsWith(f.mimeType, "image/") && f.size <= MaxImageBytes
  }

  /** The checks in the page's order: the type first, then the size. */
  function CheckFile(f: PickedFile): (c: FileCheck)
    ensures c == Accepted <==> AcceptsImage(f)
    ensures c == NotAnImage <==> !StartsWith(f.mimeType, "image/")
    ensures c == TooLarge <==> StartsWith(f.mimeType, "image/") && f.size > MaxImageBytes
  {
    if !StartsWith(f.mimeType, "image/") then NotAnImage
    else if f.size > MaxImageBytes then TooLarge
    else Accepted
  }

  /** The size bound is inclusive: an image of exactly 16 MiB is taken, one
      byte more is refused. */
  lemma {:induction false} SizeBoundary(name: string, mimeType: string)
    requires StartsWith(mimeType, "image/")
    ensures CheckFile(PickedFile(name, mimeType, 16777216)) == Accepted
    ensures CheckFile(PickedFile(name, mimeType, 16777217)) == TooLarge
  {
  }

  /** The address at which the page shows the enhanced image. */
  function ResultUrl(outputFile: Option<string>): (url: string)
    ensures url == Enhancement.ViewUrl(outputFile)
  {
    ServiceBase + "/view/" + Interpolate(outputFile)
  }

  /** The page calls the same service the server forwards to: the same
      upload address, and the same address for a result. */
  lemma {:induction false} SameServiceAsServer(outputFile: Option<string>)
    ensures DirectUploadUrl == Enhancement.AiApiUrl
    ensures ResultUrl(outputFile) == Enhancement.ViewUrl(outputFile)
  {
  }

  /** The body of a 2xx answer; `NullBody` is a missing body. */
  datatype ResponseBody =
    | NullBody
    | Body(success: bool, outputFile: Option<string>, message: Option<string>)

  /** How the direct call ended: a 2xx answer, an error answer whose body
      may carry `detail` and `message`, or no answer at all. */
  datatype DirectOutcome =
    | Answered(body: ResponseBody)
    | ErrorAnswer(detail: Option<string>, message: Option<string>)
    | NoAnswer

  /** The POST the page sends: the address and the selected file. */
  datatype DirectRequest = DirectRequest(url: string, file: PickedFile)

  /** The notice shown (a toast). */
  datatype Notice = NoImageSelected | Enhanced | EnhanceError(message: string)

  /** The error text shown for a failed attempt: `detail`, else `message` of
      an error answer; a 2xx answer without `success` raises an error of the
      page's own, which carries no answer and so shows the default text. */
  function ErrorText(outcome: DirectOutcome): (text: string)
    ensures outcome.ErrorAnswer? && Truthy(outcome.detail) ==> text == outcome.detail.value
    ensures outcome.ErrorAnswer? && !Truthy(outcome.detail) ==> text == Or(outcome.message, DefaultError)
    ensures !outcome.ErrorAnswer? ==> text == DefaultError
  {
    match outcome
    case ErrorAnswer(detail, message) => Or(detail, Or(message, DefaultError))
    case _ => DefaultError
  }

  /** The call succeeded: a 2xx answer whose body has a truthy `success`. */
  predicate Succeeded(outcome: DirectOutcome)
  {
    outcome.Answered? && outcome.body.Body? && outcome.body.success
  }

  /** The page component's state; an object URL and a result URL are
      strings, a missing one is `None`. */
  class HomePage {
    var selectedFile: Option<PickedFile>
    var beforeImageUrl: Option<string>
    var afterImage: Option<string>
    var isUploading: bool

    constructor()
      ensures selectedFile.None? && beforeImageUrl.None? && afterImage.None? && !isUploading
    {
      selectedFile := None;
      beforeImageUrl := None;
      afterImage := None;
      isUploading := false;
    }

    /** `handleFileChange`: an accepted file becomes the selection, shown
        from `objectUrl` (the browser's object URL for it), and clears the
        previous result; a refused file, or no file, changes nothing. */
    method HandleFileChange(file: Option<PickedFile>, objectUrl: string) returns (check: Option<FileCheck>)
      modifies this
      ensures check == (if file.Some? then Some(CheckFile(file.value)) else None)
      ensures file.Some? && AcceptsImage(file.value) ==>
        selectedFile == file && beforeImageUrl == Some(objectUrl) && afterImage.None?
      ensures !(file.Some? && AcceptsImage(file.value)) ==>
        && selectedFile == old(selectedFile) && beforeImageUrl == old(beforeImageUrl)
        && afterImage == old(afterImage)
      ensures isUploading == old(isUploading)
    {
      if file.None? {
        return None;
      }
      var f := file.value;
      if !StartsWith(f.mimeType, "image/") {
        return Some(NotAnImage);
      }
      if f.size > MaxImageBytes {
        return Some(TooLarge);
      }
      selectedFile := Some(f);
      beforeImageUrl := Some(objectUrl);
      afterImage := None;
      return Some(Accepted);
    }

    /** `handleEnhance`: without a selection no request is made; otherwise
        one request posting the selected file to the service's upload
        address, with `isUploading` raised while it runs, the result shown
        only on success, and `isUploading` lowered afterwards in every case. */
    method HandleEnhance(outcome: DirectOutcome) returns (request: Option<DirectRequest>, uploadingDuringRequest: bool, notice: Notice)
      modifies this
      ensures request.Some? <==> old(selectedFile).Some?
      ensures request.Some? ==> request.value == DirectRequest(DirectUploadUrl, old(selectedFile).value)
      ensures request.None? ==> notice == NoImageSelected && isUploading == old(isUploading)
      ensures request.Some? ==> uploadingDuringRequest && !isUploading
      ensures request.Some? && Succeeded(outcome) ==>
        afterImage == Some(ResultUrl(outcome.body.outputFile)) && notice == Enhanced
      ensures !(request.Some? && Succeeded(outcome)) ==> afterImage == old(afterImage)
      ensures request.Some? && !Succeeded(outcome) ==> notice == EnhanceError(ErrorText(outcome))
      ensures selectedFile == old(selectedFile) && beforeImageUrl == old(beforeImageUrl)
    {
      if selectedFile.None? {
        return None, false, NoImageSelected;
      }
      isUploading := true;
      request := Some(DirectRequest(DirectUploadUrl, selectedFile.value));
      uploadingDuringRequest := isUploading;
      if outcome.Answered? && outcome.body.Body? && outcome.body.success {
        afterImage := Some(ResultUrl(outcome.body.outputFile));
        notice := Enhanced;
      } else {
        notice := EnhanceError(ErrorText(outcome));
      }
      isUploading := false;
    }
  }
}
