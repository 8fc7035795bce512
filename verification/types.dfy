/** The values that travel through the pipeline (core/include/pipeline/types.hpp). */
module Types {

  datatype Option<+T> = None | Some(value: T)

  datatype Rect = Rect(x: real, y: real, w: real, h: real)

  datatype Face = Face(bbox: Rect, score: real, landmarkCount: int, frameId: int, isFresh: bool)

  /** The two strings that `privacy_action` takes. */
  datatype PrivacyAction = Anonymize | Allow

  /** The strings that `recognition_state` takes; `Unset` is the empty string, `Noop` is set when nothing recognizes. */
  datatype RecognitionState = Unset | Skipped | Pending | Known | Unknown | Failed | FaceOnly | Noop

  datatype Box = Box(
    rect: Rect,
    id: int,
    score: real,
    identityKey: string,
    confidence: real,
    action: PrivacyAction,
    state: RecognitionState,
    face: Option<Face>)

  /** The immutable part of a `FrameCtx`; `hasImage` is `!inf.empty()`. */
  datatype Frame = Frame(streamId: string, id: int, width: int, height: int, hasImage: bool)

  function Max(a: int, b: int): (m: int)
    ensures m >= a && m >= b && (m == a || m == b)
  {
    if a >= b then a else b
  }
}
