/**
 * The HTTP handler for `POST /schedule` (src/controllers/schedulerController.js): input
 * validation, the call into the extraction service, the mapping of a thrown error to a
 * 500 response, and the clean-up of the uploaded file in `finally`.
 *
 * The service is a parameter: for a given call it either returns a reply or throws.
 * The `unlink` of the upload is recorded as the path whose deletion was attempted.
 */
module SchedulerController {
  import opened Wrappers
  import opened Text
  import AiService

  const NoInputMessage: string := "No input provided"
  const InternalErrorMessage: string := "Internal error processing request"

  /** `buildNeedsClarification(message, rawText)` of the controller: the caller chooses the message. */
  function BuildNeedsClarification(message: string, rawText: Option<string>): (c: AiService.Clarification)
    ensures c.status == "needs clarification"
    ensures c.message == message
    ensures AiService.Truthy(rawText) ==> c.rawText == rawText.value
    ensures !AiService.Truthy(rawText) ==> c.rawText == ""
  {
    AiService.Clarification(AiService.ClarificationStatus, message, AiService.OrElse(rawText, ""))
  }

  /** With the service's message, the controller's record is the service's record. */
  lemma SameRecordAsService(rawText: Option<string>)
    ensures BuildNeedsClarification("Ambiguous date/time or department", rawText)
         == AiService.BuildNeedsClarification(rawText)
  {
  }

  /**
   * The text the handler works with: `req.body.text` trimmed when it is a string, and ""
   * otherwise (`bodyText` is None when the field is absent or not a string).
   */
  function RequestText(bodyText: Option<string>): (t: string)
    ensures Trimmed(t)
    ensures bodyText.None? ==> t == []
    ensures bodyText.Some? ==> |t| <= |bodyText.value|
  {
    match bodyText
    case Some(s) => Trim(s)
    case None => ""
  }

  /** The request text is the body text up to white space at the ends, and only that. */
  lemma RequestTextIsTrim(s: string)
    ensures exists l: string, r: string :: AllWhitespace(l) && AllWhitespace(r) && s == l + RequestText(Some(s)) + r
  {
    var l, r := TrimShape(s);
    assert RequestText(Some(s)) == Trim(s);
    assert s == l + RequestText(Some(s)) + r;
  }

  /** Normalising the text again changes nothing. */
  lemma RequestTextStable(bodyText: Option<string>)
    ensures RequestText(Some(RequestText(bodyText))) == RequestText(bodyText)
  {
    match bodyText
    case Some(s) => TrimIdempotent(s);
    case None =>
  }

  /** What `multer` leaves in `req.file`: the stored path and the declared MIME type. */
  datatype UploadedFile = UploadedFile(path: string, mimeType: string)

  /** The arguments of `aiService.processInput({ text, imagePath, mimeType })`. */
  datatype ServiceCall = ServiceCall(text: string, imagePath: Option<string>, mimeType: Option<string>)

  /** How the awaited service call settles: a value, or a thrown error. */
  datatype ServiceOutcome = Returned(reply: AiService.Reply) | Threw

  /** The status code and JSON body sent back. */
  datatype Response = Response(status: nat, body: AiService.Reply)

  function ImagePath(file: Option<UploadedFile>): Option<string> {
    if file.Some? then Some(file.value.path) else None
  }

  function MimeType(file: Option<UploadedFile>): Option<string> {
    if file.Some? then Some(file.value.mimeType) else None
  }

  /** The request has neither text nor an uploaded image. */
  predicate NoInput(bodyText: Option<string>, file: Option<UploadedFile>) {
    RequestText(bodyText) == [] && !AiService.Truthy(ImagePath(file))
  }

  /**
   * `handleSchedule(req, res)`. `called` is the service call made, if any; `deleted` is the
   * path whose `unlink` was attempted, if any (its failure is swallowed, so it has no outcome).
   */
  method HandleSchedule(bodyText: Option<string>, file: Option<UploadedFile>,
                        service: ServiceCall -> ServiceOutcome)
    returns (res: Response, called: Option<ServiceCall>, deleted: Option<string>)
    ensures NoInput(bodyText, file) ==>
              res == Response(400, AiService.Clarify(AiService.Clarification("needs clarification", "No input provided", "")))
              && called == None && deleted == None
    ensures !NoInput(bodyText, file) ==>
              called == Some(ServiceCall(RequestText(bodyText), ImagePath(file), MimeType(file)))
    ensures called.Some? && service(called.value).Returned? ==> res == Response(200, service(called.value).reply)
    ensures called.Some? && service(called.value).Threw? ==>
              res == Response(500, AiService.Clarify(AiService.Clarification(
                       "needs clarification", "Internal error processing request", RequestText(bodyText))))
    ensures deleted.Some? <==> called.Some? && AiService.Truthy(ImagePath(file))
    ensures deleted.Some? ==> deleted == ImagePath(file)
  {
    var text := RequestText(bodyText);
    var imagePath := ImagePath(file);
    var mimeType := MimeType(file);
    if text == [] && !AiService.Truthy(imagePath) {
      return Response(400, AiService.Clarify(BuildNeedsClarification(NoInputMessage, Some([])))), None, None;
    }
    var call := ServiceCall(text, imagePath, mimeType);
    called := Some(call);
    var outcome := service(call);
    match outcome {
      case Returned(reply) =>
        res := Response(200, reply);
      case Threw =>
        res := Response(500, AiService.Clarify(BuildNeedsClarification(InternalErrorMessage, Some(text))));
    }
    // `finally`: runs on both paths once the service was called.
    deleted := None;
    if AiService.Truthy(imagePath) {
      deleted := imagePath;
    }
  }

  /** A request with an image is always served, whatever its text. */
  lemma ImageSuffices(bodyText: Option<string>, path: string, mimeType: string)
    requires path != ""
    ensures !NoInput(bodyText, Some(UploadedFile(path, mimeType)))
  {
  }

  /** A request whose text has something besides white space is always served. */
  lemma TextSuffices(s: string, file: Option<UploadedFile>)
    requires !AllWhitespace(s)
    ensures !NoInput(Some(s), file)
  {
    TrimEmptyIff(s);
  }
}
