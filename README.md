# Hand-pose result normalisation and model loading, in Dafny

This project models the orchestration core of the hand-pose module of the
`human` library (`src/handpose/handpose.ts`). It covers two parts.

- **`predict`** turns the hand pipeline's per-hand detections into hand
  results. Each result gets:
  - a positional `id`;
  - a confidence rounded to two decimals;
  - a pixel box `[x, y, w, h]` clamped to the image;
  - an unclamped box normalised by the image size (`boxRaw`);
  - the raw landmarks;
  - the landmarks grouped into six finger groups by the fixed
    mesh-annotation table.
- **`load`** keeps two process-wide model handles (detector and landmark
  model) cached, and rebuilds the hand pipeline around them on every call
  that does not throw.

Numbers are modelled as `real`s. `Math.round(x)` is modelled as
`floor(x + 1/2)`. The image size is `width = shape[2]` and
`height = shape[1]` of the input tensor, both positive.

Modules:

- `Wrappers` (wrappers.dfy): `Option` for a value that may be `null` or
  `undefined`, and `Result` for an operation that can throw.
- `Annotations` (annotations.dfy): the mesh-annotation table, its partition
  properties, the annotation map as a function (`Annotate`), and the
  key-by-key filling loop as a method (`AnnotateLandmarks`).
- `BoxGeometry` (box.dfy): the clamped pixel box, the normalised box, and
  its inverse (`Denormalize`).
- `Confidence` (confidence.dfy): `Math.round` and two-decimal rounding.
- `Handpose` (handpose.dfy): detections, hand results, and the `Predict`
  loop, proved against the per-hand function `HandAt`.
- `HandposeLoader` (loader.dfy): the cache rule as pure functions over
  handle pairs, with lemmas over runs of loads. The module-level state is
  the class `HandModels`, whose `Load` method is tied to those functions.

A detection without a box is treated inconsistently by the source. The
guard at lines 33–38 gives it the zero box, which suggests it was meant to
survive. But line 40 then reads `box.topLeft` for `boxRaw` without a guard.
That read throws, and the whole `predict` call fails. The model follows
what the code does: `Predict` returns `Failure(MissingBox(k))` for the
first such detection `k`.

## Model

| member | source | states |
|---|---|---|
| Annotations.GroupPoints | src/handpose/handpose.ts:30 | a group has one point per table index, and point `j` is the landmark at the group's `j`-th index |
| Annotations.FillKeys | src/handpose/handpose.ts:28-31 | writing the table's entries into an empty map one by one gives exactly the table's keys |
| Annotations.FillLookup | src/handpose/handpose.ts:28-31 | with distinct keys, no later entry overwrites an earlier key: each key maps to its own group |
| Annotations.FillExtend | src/handpose/handpose.ts:28-31 | filling one more table entry writes that entry's group over the map filled so far |
| Annotations.MeshIndexFormula | src/handpose/handpose.ts:8-15 | group `k < 5` holds the four indices from `4k + 1`; the palm base (group 5) holds `[0]` |
| Annotations.MeshAnnotationsPartition | src/handpose/handpose.ts:8-15 | every table index is below 21, every index 0..20 occurs, and no index occurs at two positions |
| Annotations.MeshAnnotationsShape | src/handpose/handpose.ts:8-15 | six distinct keys (thumb, indexFinger, middleFinger, ringFinger, pinky, palmBase); palmBase has 1 index, each other group 4 |
| Annotations.Annotate | src/handpose/handpose.ts:26-31 | no landmarks give the empty map; otherwise the keys are exactly the six finger names and each key maps to its table group of points |
| Annotations.AnnotationPoint | src/handpose/handpose.ts:30 | `annotations[key][j] == landmarks[meshAnnotations[key][j]]`, in table order |
| Annotations.AnnotateLandmarks | src/handpose/handpose.ts:28-31 | the key-by-key filling loop yields exactly the annotation map `Annotate` specifies |
| BoxGeometry.PixelBox | src/handpose/handpose.ts:33-38 | a missing box gives `[0,0,0,0]`; otherwise `x, y >= 0`, `x + w <= W`, `y + h <= H`, and the clamped edges lie within the detector's edges |
| BoxGeometry.PixelBoxEdges | src/handpose/handpose.ts:34-37 | `x = max(0, tl.x)`, `y = max(0, tl.y)`, `x + w = min(W, br.x)`, `y + h = min(H, br.y)` |
| BoxGeometry.PixelBoxInside | src/handpose/handpose.ts:33-37 | for a box whose left and top edges are at least 0 and right and bottom edges at most the image size, clamping is a no-op: `[tl.x, tl.y, br.x - tl.x, br.y - tl.y]` |
| BoxGeometry.PixelBoxWidthMayBeNegative | src/handpose/handpose.ts:36 | width is not floored at zero: a box right of the image gets width -50 |
| BoxGeometry.BoxRaw | src/handpose/handpose.ts:39-44 | the normalised box times the image size gives back the unclamped `tl.x`, `tl.y`, `br.x - tl.x`, `br.y - tl.y` |
| BoxGeometry.BoxRawRoundTrip | src/handpose/handpose.ts:39-44 | scaling the normalised box back to pixels gives the detector's two corners exactly |
| BoxGeometry.BoxRawInside | src/handpose/handpose.ts:33-44 | for a box whose left and top edges are at least 0 and right and bottom edges at most the image size, the normalised box is the pixel box divided by the image size, its left and top edges are at least 0 and its right and bottom edges at most 1 (an inverted box is not excluded, so the box itself may stick out past 1) |
| BoxGeometry.ExampleInside | src/handpose/handpose.ts:33-44 | box (10,20)-(110,220) in 300x400: pixel box `[10,20,100,200]`, normalised `[10/300,20/400,100/300,200/400]` |
| BoxGeometry.ExampleOverhang | src/handpose/handpose.ts:33-44 | box (-5,-5)-(50,50) in 100x100: pixel box `[0,0,50,50]`, normalised `[-0.05,-0.05,0.55,0.55]` |
| Confidence.Round | src/handpose/handpose.ts:46 | `Math.round` gives the integer `n` with `x - 1/2 < n <= x + 1/2` (nearest, halves up) |
| Confidence.RoundConfidence | src/handpose/handpose.ts:46 | `100 * confidence` is an integer, and the confidence moves by at most 1/200 |
| Confidence.RoundConfidenceNearest | src/handpose/handpose.ts:46 | no multiple of 1/100 is closer to the raw confidence than the rounded one |
| Confidence.RoundConfidenceIdempotent | src/handpose/handpose.ts:46 | rounding an already rounded confidence changes nothing |
| Confidence.RoundConfidenceExamples | src/handpose/handpose.ts:46 | 0.8567 rounds to 0.86; 1.0 stays 1.0 |
| Handpose.HandAt | src/handpose/handpose.ts:26-46 | a hand has `id = i` and the landmarks unchanged; confidence has two decimals within 1/200; box's left and top edges at least 0 and right and bottom edges at most the image size (a box beyond the image can still start past it); `boxRaw` scales back to the detector box; annotations are empty exactly when landmarks are missing |
| Handpose.Predict | src/handpose/handpose.ts:21-49 | falsy detections give `[]`; it fails exactly when some detection has no box, naming the first one; otherwise one hand per detection, in order, hand `i` being `HandAt(i, ...)` |
| HandposeLoader.ReloadRespectsFlags | src/handpose/handpose.ts:54-57 | after a reload that does not throw, a present detector handle means `enabled` was set and it is what the detector load resolved to; likewise for the landmark handle and `landmarks` |
| HandposeLoader.CachedHandlesKept | src/handpose/handpose.ts:52-67 | once both handles are cached, no later call takes the reload branch at line 52, and the cache stays unchanged |
| HandposeLoader.ReloadCountUntilSettled | src/handpose/handpose.ts:52-57 | over any run of calls, the calls taking the reload branch are exactly those before the cache first holds both handles (all of them if it never does) |
| HandposeLoader.LoadsOnce | src/handpose/handpose.ts:52-57 | with both models requested and both loads of the first call resolving to handles, a run of calls takes the reload branch exactly once and keeps the first handles |
| HandposeLoader.LandmarksOffReloadsEveryTime | src/handpose/handpose.ts:52-56 | with `landmarks` off and starting from a cache that is missing a handle, every call takes the reload branch, and a null landmark handle stays null |
| HandposeLoader.DetectorOffStaysMissing | src/handpose/handpose.ts:52-55 | with `enabled` off, a missing detector handle stays missing and every call takes the reload branch |
| HandposeLoader.HandDetector.constructor | src/handpose/handpose.ts:68 | the detector stage holds the current detector handle |
| HandposeLoader.HandPipeline.constructor | src/handpose/handpose.ts:69 | the pipeline holds the detector stage and the current landmark handle |
| HandposeLoader.HandModels.constructor | src/handpose/handpose.ts:17-19 | at start both handles are null and there is no pipeline |
| HandposeLoader.HandModels.Load | src/handpose/handpose.ts:51-71 | it throws exactly when it takes the reload branch and a requested load rejects, and then the handles and the pipeline are unchanged; otherwise both handles are replaced if either was null, else kept, a fresh pipeline wraps the current handles, and the returned pair is the cache |
| HandposeLoader.FailedLoadKeepsCache | src/handpose/handpose.ts:52-57 | calls whose requested loads reject leave the cache as it was, so a present handle survives a failed reload |
| HandposeLoader.LoadTwice | src/handpose/handpose.ts:51-71 | with both models requested and the first call's loads resolving to handles, two calls in a row on fresh state: the second returns the first call's handles whatever its loads would come to (even a rejection), and the pipeline is rebuilt |

## Left out

- Model loading itself (`tf.loadGraphModel`, `join`, and the `tfhub.dev`
  check at lines 55–56) is a foreign call doing I/O. It is replaced by the
  parameters `detectorLoad` and `poseLoad` of `HandModels.Load`. Each is
  what that load would come to: a handle, null, or a rejection. Resource
  locators and `modelBasePath` are therefore not modelled.
- `Promise.all`, `async` and `await` are not modelled as concurrency. The
  two loads are independent inputs joined in a fixed order, and `predict`
  runs as one synchronous call. A rejection of either requested load makes
  `HandModels.Load` fail as the awaited join does. When both loads reject,
  the model does not say which rejection is reported: there is one
  `LoadRejected` error.
- The internals of `HandDetector`, `HandPipeline` and `estimateHands` are
  neural-network inference in other files. These files are not part of this
  model. `Predict` takes the detections (`Option<seq<RawDetection>>`) and
  the image size as inputs. The two classes only hold their handles.
- Diagnostic logging (lines 58–66) is not modelled, and neither is the
  `debug` flag, which only drives logging. The landmark-model failure
  message at line 61 depends on `hand.enabled`, not on `hand.landmarks`.
- IEEE floating point is not modelled. Division and `Math.round` work on
  exact reals, so nothing here claims float-exact results.
- Tensors are not modelled; only `shape[1]` and `shape[2]` are read.
- Annotations.Annotate: requires at least 21 landmarks whenever landmarks
  are present, as the landmark model always supplies. In JavaScript a
  shorter list (including an empty array, which is truthy) would not throw.
  Its annotation groups would hold `undefined` entries instead.
- Handpose.Predict: carries the same 21-landmark precondition for every
  detection that has landmarks.
- Truthiness is modelled by `Option`: a falsy detection list, box or
  landmark list is `None`. A model handle is `None` exactly when it is
  null.
