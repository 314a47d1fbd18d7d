/**
 * capture-single-image.cpp: query the cameras, choose one, capture one image
 * over HTTP and check the ImageResult FlatBuffer in the reply body. Every
 * check ends the program; the outcome names the one that did.
 */
module CaptureSingleImage {
  import opened Wrappers
  import opened SensorPackage
  import opened ImageResultFormat

  datatype Outcome =
    | CameraQueryFailed          // no reply or a status other than 200 for the camera list
    | NoCameras                  // the list is not an array, or is empty
    | FrontNotObject             // value("id") on a first element that is not an object throws
    | NoUsableCamera             // the chosen id is empty
    | CaptureFailed              // no reply or a status other than 200 for the capture
    | WrongIdentifier            // the body does not carry "OSSP"
    | InvalidFlatBuffer          // the body fails verification
    | MetadataNotPresent         // the ImageResult has no metadata table
    | Captured(cameraId: string, width: int, height: int, imageId: string)
    | NullImageId(cameraId: string, width: int, height: int)  // image_id() is null and is dereferenced

  /** The exit status each outcome leads to. */
  function ExitOf(outcome: Outcome): (exit: ExitStatus)
    ensures exit == ExitSuccess <==> outcome.MetadataNotPresent? || outcome.Captured?
    ensures exit == AbnormalTermination <==> outcome.FrontNotObject? || outcome.NullImageId?
  {
    match outcome
    case MetadataNotPresent => ExitSuccess
    case Captured(_, _, _, _) => ExitSuccess
    case FrontNotObject => AbnormalTermination
    case NullImageId(_, _, _) => AbnormalTermination
    case _ => ExitFailure
  }

  /**
   * main() of capture-single-image.cpp. `capture` is the reply to the
   * capture-image request for a camera id; `parse` is the generated verifier
   * and accessor.
   */
  method CaptureImage(camerasReply: Option<HttpResponse>, cameraList: CameraList,
                    capture: string -> Option<HttpResponse>, parse: Parser)
    returns (outcome: Outcome)
    ensures !ReplyOk(camerasReply) ==> outcome == CameraQueryFailed
    ensures ReplyOk(camerasReply) && !HasCameras(cameraList) ==> outcome == NoCameras
    ensures ReplyOk(camerasReply) && HasCameras(cameraList) ==>
              (outcome == FrontNotObject <==> cameraList.entries[0].None?)
    ensures ReplyOk(camerasReply) && HasCameras(cameraList) && cameraList.entries[0].Some? ==>
              var id := PreferredOr(cameraList.entries, cameraList.entries[0].value);
              (id == "" ==> outcome == NoUsableCamera) &&
              (id != "" && !ReplyOk(capture(id)) ==> outcome == CaptureFailed) &&
              (id != "" && ReplyOk(capture(id)) ==>
                 var body := capture(id).value.body;
                 match Classify(body, parse)
                 case WrongId => outcome == WrongIdentifier
                 case Corrupt => outcome == InvalidFlatBuffer
                 case NoMetadata => outcome == MetadataNotPresent
                 case Ok(w, h, imageId) =>
                   outcome == if imageId.Some? then Captured(id, w, h, imageId.value) else NullImageId(id, w, h))
  {
    if !(camerasReply.Some? && camerasReply.value.statusCode == 200) {
      return CameraQueryFailed;
    }
    if !(cameraList.CameraArray? && cameraList.entries != []) {
      return NoCameras;
    }
    var choice := ChooseCamera(cameraList.entries);
    if choice.FrontNotAnObject? {
      return FrontNotObject;
    }
    if choice.id == "" {
      return NoUsableCamera;
    }
    var reply := capture(choice.id);
    if !(reply.Some? && reply.value.statusCode == 200) {
      return CaptureFailed;
    }
    var body := reply.value.body;
    if !HasIdentifier(body) {
      return WrongIdentifier;
    }
    var root := parse(body);
    if root.None? {
      return InvalidFlatBuffer;
    }
    if root.value.metadata.None? {
      return MetadataNotPresent;
    }
    var metadata := root.value.metadata.value;
    if metadata.imageId.None? {
      return NullImageId(choice.id, metadata.width, metadata.height);
    }
    return Captured(choice.id, metadata.width, metadata.height, metadata.imageId.value);
  }
}
