/** The result assembler: turning the hand pipeline's per-hand detections into
    the list of hand results that prediction returns. */
module Handpose {
  import opened Wrappers
  import opened Annotations
  import opened BoxGeometry
  import opened Confidence

  /** One detection as the hand pipeline reports it: a box that may be
      missing, a raw confidence and landmarks that may be missing. */
  datatype RawDetection = RawDetection(box: Option<DetectorBox>, confidence: real, landmarks: Option<seq<Point>>)

  /** One hand of the result list. */
  datatype Hand = Hand(
    id: nat,
    confidence: real,
    box: Rect,
    boxRaw: Rect,
    landmarks: Option<seq<Point>>,
    annotations: map<string, seq<Point>>)

  /** Why prediction fails: the normalised box of detection `index` reads the
      corners of a box the detection does not have. */
  datatype PredictError = MissingBox(index: nat)

  /** A detection that has landmarks has all of them. */
  predicate LandmarksComplete(d: RawDetection) {
    d.landmarks.Some? ==> |d.landmarks.value| >= LandmarkCount
  }

  /** `k` is the first detection of `ps` without a box. */
  predicate FirstMissingBox(ps: seq<RawDetection>, k: nat) {
    k < |ps| && ps[k].box.None? && forall j :: 0 <= j < k ==> ps[j].box.Some?
  }

  /** The hand result made from detection `d` at position `i`. */
  function HandAt(i: nat, d: RawDetection, image: ImageSize): (h: Hand)
    requires image.width > 0 && image.height > 0
    requires d.box.Some? && LandmarksComplete(d)
    ensures h.id == i && h.landmarks == d.landmarks
    ensures (100.0 * h.confidence).Floor as real == 100.0 * h.confidence
    ensures d.confidence - 0.005 < h.confidence <= d.confidence + 0.005
    ensures 0.0 <= h.box.x && h.box.x + h.box.width <= image.width as real
    ensures 0.0 <= h.box.y && h.box.y + h.box.height <= image.height as real
    ensures Denormalize(h.boxRaw, image) == d.box.value
    ensures d.landmarks.None? <==> h.annotations == map[]
  {
    BoxRawRoundTrip(d.box.value, image);
    MeshAnnotationsShape();
    Hand(i, RoundConfidence(d.confidence), PixelBox(d.box, image), BoxRaw(d.box.value, image),
         d.landmarks, Annotate(d.landmarks))
  }

  /** Normalises the pipeline's detections for one image. No detections at all
      give an empty list; otherwise there is one hand per detection, in order,
      numbered from 0, unless some detection has no box, in which case
      prediction fails at the first such detection. */
  method Predict(predictions: Option<seq<RawDetection>>, image: ImageSize)
    returns (r: Result<seq<Hand>, PredictError>)
    requires image.width > 0 && image.height > 0
    requires predictions.Some? ==>
      forall i :: 0 <= i < |predictions.value| ==> LandmarksComplete(predictions.value[i])
    ensures predictions.None? ==> r == Success([])
    ensures r.Failure? <==>
      predictions.Some? && exists i :: 0 <= i < |predictions.value| && predictions.value[i].box.None?
    ensures r.Failure? ==> FirstMissingBox(predictions.value, r.error.index)
    ensures r.Success? && predictions.Some? ==>
      |r.value| == |predictions.value| &&
      forall i :: 0 <= i < |predictions.value| ==>
        predictions.value[i].box.Some? && r.value[i] == HandAt(i, predictions.value[i], image)
  {
    if predictions.None? {
      return Success([]);
    }
    var ps := predictions.value;
    var hands: seq<Hand> := [];
    for i := 0 to |ps|
      invariant |hands| == i
      invariant forall k :: 0 <= k < i ==> ps[k].box.Some? && hands[k] == HandAt(k, ps[k], image)
    {
      var annotations: map<string, seq<Point>> := map[];
      if ps[i].landmarks.Some? {
        annotations := AnnotateLandmarks(ps[i].landmarks.value);
      }
      var box := PixelBox(ps[i].box, image);
      if ps[i].box.None? {
        return Failure(MissingBox(i));
      }
      var boxRaw := BoxRaw(ps[i].box.value, image);
      hands := hands + [Hand(i, RoundConfidence(ps[i].confidence), box, boxRaw, ps[i].landmarks, annotations)];
    }
    return Success(hands);
  }
}
