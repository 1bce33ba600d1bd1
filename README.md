# Deepfake video detection pipeline: a Dafny model

This project models the inference pipeline of a deepfake video detection
service. The service has two variants, `api/` and `backend/`. Each variant
samples frames from an uploaded video, finds and crops the largest face in
each frame, classifies the sequence of crops with a ResNeXt-50 backbone
followed by a bidirectional LSTM, and reports REAL or FAKE with a confidence.
When the ML stack is unavailable, or any stage of the real path raises, the
`/api/predict/` endpoint answers with a deterministic mock prediction derived
from the file's MD5 digest.

The model covers the integer and sequence bookkeeping around the libraries:
- which frame positions are sampled;
- how failed reads, failed detections and failed transforms are skipped;
- how the largest box is chosen and padded, and how it is clamped to the frame;
- the center-crop fallback;
- channel coercion, first-maximum argmax and the confidence;
- request validation, dispatch between the real and mock paths, and report assembly.

The libraries themselves are oracles, given as function-typed parameters:
- OpenCV decode, `face_recognition`, the Haar cascade, the torchvision transform;
- the backbone, the LSTM, the classification head and softmax.

An oracle returning `None` (or a `Result` being `Err`) stands for the call
raising.

Images are symbolic. An image has a height, a width, and either one plane
(a rank-2 array) or a sequence of channel planes (a rank-3 array). A plane
records only where its samples came from: decoded, cropped or resized.
This is enough to state that slicing follows Python's rules, that
`cv2.resize` fails on empty input, and that the stacked channels of a
grayscale image are all the original plane.

Files, one module each:
- `wrappers.dfy`: `Option`, `Result`, and one `Error` per exception the pipeline raises.
- `seqs.dfy`: the skip-on-failure loop as `FilterMap` (with the positions it keeps, `Survivors`), and first-maximum `ArgMax`.
- `images.dfy`: images, Python slicing, `cv2.resize`, and `center_crop` (identical in both variants).
- `sampling.dfy`: uniform (`np.linspace`) and random frame positions, and the decode loop shared by both `extract_frames`.
- `api_video.dfy`, `backend_video.dfy`: the two `video_processor.py` files.
- `inference.dfy`: what `predict_video` computes (identical in both `ml_model.py` files).
- `api_model.dfy`, `backend_model.dfy`: the two `ml_model.py` loops.
- `text.dfy`: `int(s, 16)` on a hex digest and decimal rendering of integers.
- `api_main.dfy`: the endpoint, the real-path assembly, the mock, and the module-level `ML_AVAILABLE`/`model` state as a class.

Behaviour of the code worth knowing, all of it modelled as written:
- In `api/`, a frame with no usable face is dropped (api/video_processor.py:123-130), so the face list can be shorter than the frame list. The center-crop fallback covers every frame only when no frame at all yields a face (api/video_processor.py:132-135).
- In `backend/`, the fallback crops only `frames[:20]` (backend/video_processor.py:125), so it returns at most 20 images.
- Padding is a fifth of the box height in `api/` (api/video_processor.py:114) and a fifth of the larger side in `backend/` (backend/video_processor.py:106).
- The real path reports `confidence * 100` (api/main.py:170), a percentage like the mock's 85 to 99 (api/main.py:194).
- `frames_analyzed` is the requested `sequence_length` (api/main.py:124), not the number of frames actually decoded.
- The mock opens the file to hash it (api/main.py:189-190), so it can raise; that path is not modelled (see below).

## Model

| member | source | states |
|---|---|---|
| Seqs.ArgMax | api/ml_model.py:191 | the index is in range, no entry exceeds the entry there, and every earlier entry is strictly smaller (ties go to the first) |
| Images.SliceBound | api/video_processor.py:121 | a slice bound lands inside the axis; an in-range bound is kept, one past the end is clamped to the length |
| Images.SliceRegion | api/video_processor.py:121 | the region a slice selects always lies inside the image, and is the requested one when that is in bounds |
| Images.Crop | api/video_processor.py:161 | a crop has the region's height and width and the source's rank and channel count |
| Images.Slice | api/video_processor.py:121 | slicing never raises, never enlarges the image and keeps its rank and channel count |
| Images.Resize | api/video_processor.py:164-165 | `cv2.resize` succeeds exactly when source and target are non-empty, giving a size by size image; a single-channel rank-3 source comes back rank 2, as OpenCV's Python binding returns it, and any other depth is kept; it fails with ResizeFailed otherwise |
| Images.CenterSquare | backend/video_processor.py:141-151 | the square has side `min(h, w)`, lies inside the image, touches the top or the left edge, and the margin after it exceeds the one before it by at most one in each direction (same code as api/video_processor.py:151-161) |
| Images.CenterCrop | api/video_processor.py:151-167 | a success is size by size, with the image's depth except that a resized single-channel crop comes back rank 2; it fails exactly when the side differs from size and one of them is zero; with side equal to size the result is the centred square itself, otherwise it is that square resized (backend/video_processor.py:141-157 is the same code) |
| Images.CenterCropAll | api/video_processor.py:135 | the list comprehension succeeds exactly when every frame's crop does, then has one crop per frame in order; a failure is ResizeFailed |
| Images.FifthTowardZero | api/video_processor.py:114 | `int(n * 0.2)`: a fifth rounded toward zero, bounded on both sides for either sign |
| Sampling.UniformIndicesSpec | api/video_processor.py:42 | `num` positions, non-decreasing, each below the frame count, the first 0 and (for two or more) the last `total - 1`; when `total == num` exactly `0..num-1` |
| Sampling.RandomIndices | api/video_processor.py:45-46 | `min(num, total)` positions, strictly increasing (distinct and sorted), each below the frame count |
| Sampling.DecodeFrames | api/video_processor.py:53-64 | the decode loop yields exactly the successful reads in position order |
| Sampling.FramesAtSpec | api/video_processor.py:53-68 | raises exactly when no read succeeds; otherwise between 1 and `|indices|` frames, the k-th being the read of the k-th surviving position, survivors strictly increasing, and every position whose read succeeds among the survivors |
| ApiVideoProcessor.ExtractUniformSpec | api/video_processor.py:28-68 | uniform extraction raises exactly for an unopened or empty video, a negative count, or no successful read; otherwise at most `num_frames` frames read at non-decreasing in-range positions |
| ApiVideoProcessor.ExtractFrames | api/video_processor.py:28-71 | unopened and empty videos raise; 'uniform' is the uniform extraction; 'random' decodes some sorted distinct draw of `min(num, total)` positions; any other method raises UnknownMethod |
| ApiVideoProcessor.Doubled | api/video_processor.py:101-102 | one box per half-resolution box, every coordinate doubled in (top, right, bottom, left) order, so each area is four times as large |
| ApiVideoProcessor.CandidatesSpec | api/video_processor.py:94-102 | full-resolution boxes are used when there are some; only when there are none is the half-resolution search used, doubled; a raising call yields no candidates |
| ApiVideoProcessor.Largest | api/video_processor.py:106-107 | the chosen box has maximal `(bottom - top) * (right - left)`, and every earlier box has a strictly smaller area |
| ApiVideoProcessor.Pad | api/video_processor.py:114-118 | the padded box never passes the frame's edges, whatever the box |
| ApiVideoProcessor.PadContains | api/video_processor.py:114-118 | for a box inside the frame, the padded box is inside the frame, contains the box, and each edge moves by `(bottom - top) // 5` up to the frame edge |
| ApiVideoProcessor.FaceOfSpec | api/video_processor.py:104-122 | a frame yields a crop exactly when a box is found and the first largest box reaches `min_face_size` both ways; for a box inside the frame the crop is the padded region and at least `min_face_size` both ways |
| ApiVideoProcessor.CropFace | api/video_processor.py:92-130 | one loop iteration, with the in-place reassignment of the box edges, computes the per-frame crop |
| ApiVideoProcessor.CollectFaces | api/video_processor.py:89-130 | the loop over the frames keeps exactly the per-frame crops, in frame order |
| ApiVideoProcessor.DetectFaces | api/video_processor.py:89-138 | the loop yields the per-frame crops, or the center crops of every frame when there are none |
| ApiVideoProcessor.LocatedFacesCrops | api/video_processor.py:104-131 | when some frame yields a face the result holds only per-frame crops, one per such frame (every frame yielding a face is among the survivors), in frame order, between 1 and `|frames|` of them |
| ApiVideoProcessor.LocatedFacesFallback | api/video_processor.py:132-135 | when no frame yields a face the result is the 224 by 224 center crop of every frame, and it raises exactly when some frame is empty in one direction |
| ApiVideoProcessor.LocatedFacesNonEmpty | api/video_processor.py:132-138 | a non-empty frame list never yields an empty face list |
| BackendVideoProcessor.ExtractUniformSpec | backend/video_processor.py:31-62 | uniform extraction raises exactly for an unopened or empty video, a negative count, or no successful read; otherwise 1 to `num_frames` frames, each the read of an in-range sampled position |
| BackendVideoProcessor.ExtractFrames | backend/video_processor.py:31-65 | unopened and empty videos raise; 'uniform' is the uniform extraction; every other method decodes a sorted distinct draw of `min(num, total)` positions, with no error for an unknown name |
| BackendVideoProcessor.LargestRect | backend/video_processor.py:102 | the chosen box has maximal `w * h`, and every earlier box has a strictly smaller area |
| BackendVideoProcessor.PadRect | backend/video_processor.py:106-110 | after clamping, `x >= 0`, `y >= 0`, `x + w <= width` and `y + h <= height`, whatever the box |
| BackendVideoProcessor.PadRectContains | backend/video_processor.py:106-113 | for a box inside the frame, the padded box is inside the frame, contains the box, and grows by `max(w, h) // 5` up to the frame edge |
| BackendVideoProcessor.FaceOfSpec | backend/video_processor.py:93-114 | a frame yields a crop exactly when the cascade finds a box (no size check, no retry); for a largest box inside the frame the crop is the padded region and at least as large as the box |
| BackendVideoProcessor.CropFace | backend/video_processor.py:88-120 | one loop iteration, with the in-place reassignment of `x`, `y`, `w`, `h`, computes the per-frame crop |
| BackendVideoProcessor.CollectFaces | backend/video_processor.py:85-120 | the loop over the frames keeps exactly the per-frame crops, in frame order |
| BackendVideoProcessor.DetectFacesOpencv | backend/video_processor.py:85-128 | the loop yields the per-frame crops, or the center crops of the first 20 frames when there are none |
| BackendVideoProcessor.LocatedFacesCrops | backend/video_processor.py:85-121 | when some frame yields a face the result holds only per-frame crops, one per such frame (every frame yielding a face is among the survivors), in frame order |
| BackendVideoProcessor.LocatedFacesFallback | backend/video_processor.py:122-125 | when no frame yields a face the result has `min(|frames|, 20)` entries, the 224 by 224 crop of each of the first frames, and raises exactly when one of those is empty in one direction |
| Inference.ToRgb | api/ml_model.py:168-171 | a rank-2 image becomes three channels all equal to its plane, a four-channel image keeps its first three channels, any other image is unchanged, and the dimensions are kept |
| Inference.ToRgbIdempotent | backend/ml_model.py:147-150 | converting twice is converting once, and the result has three channels exactly when the input was rank 2 or had three or four channels |
| Inference.ModelInputSpec | api/ml_model.py:165-184 | the model sees one tensor per image the transform accepted, in image order, as many as survive; none exactly when every image was refused |
| Inference.FeaturesPerFrame | api/ml_model.py:54-56 | the backbone sees each frame alone: features of a concatenation concatenate, and a frame's feature depends on that frame only |
| Inference.ForwardThroughFeatures | backend/ml_model.py:43-55 | the logits depend on the frames only through their per-frame features |
| Inference.Decide | api/ml_model.py:190-192 | argmax raises exactly on an empty tensor; otherwise the prediction is the first maximal index and the confidence the probability there, no smaller than any other |
| Inference.ClassifySpec | api/ml_model.py:155-194 | raises NoFaceImages exactly without images, NoImagesProcessed exactly when every image fails preprocessing, EmptyProbabilities exactly on an empty softmax output; otherwise the first most probable class and its probability |
| Inference.ClassifyTwoClasses | api/ml_model.py:18-41 | with the two-output head (`num_classes=2`), `predict_video` never meets an empty tensor, succeeds exactly when some image survives preprocessing, and answers 0 (real) or 1 (fake), 1 only when fake is strictly more probable (same head at backend/ml_model.py:16-39) |
| Inference.ClassifyConfidence | api/ml_model.py:153 | when softmax yields entries in [0, 1], the confidence `predict_video` returns lies in [0, 1] (same docstring at backend/ml_model.py:132) |
| Inference.ClassifyConfidenceHalf | api/ml_model.py:184-192 | when softmax yields two non-negative probabilities summing to one, the confidence of the predicted class lies in [0.5, 1] |
| Inference.ClassifyIgnoresRefused | backend/ml_model.py:144-170 | appending an image the transform refuses to a non-empty list of images does not change the answer |
| Inference.PreprocessAll | api/ml_model.py:161-178 | the preprocessing loop yields the transforms of the channel-coerced images that did not raise, in order |
| ApiModel.PredictVideo | api/ml_model.py:138-194 | `predict_video` computes the classification, including its two raising cases |
| ApiModel.BatchEntry | api/ml_model.py:215-220 | a successful prediction is recorded as it is, a raising one as `(0, 0.5)` |
| ApiModel.PredictBatch | api/ml_model.py:196-222 | one answer per sequence, in order: the prediction when it succeeds, `(0, 0.5)` when it raises |
| BackendModel.PredictVideo | backend/ml_model.py:117-172 | `predict_video` computes the classification, including its two raising cases |
| Text.HexDigitValue | api/main.py:193 | a hex digit's value is below 16, and below 10 for a decimal digit |
| Text.HexParity | api/main.py:193 | a hex number is even exactly when its last digit is |
| Text.HexPair | api/main.py:194 | two hex digits read as `16 * first + second`, below 256 |
| Text.Decimal | api/main.py:201 | a rendering is non-empty, all decimal digits, with no leading zero |
| Text.DecimalRoundTrip | api/main.py:201 | reading back the rendering of `n` gives `n` |
| Text.DecimalInjective | api/main.py:159-166 | different numbers render differently |
| ApiMain.PlaceholderCount | api/main.py:202 | `len(range(min(n, 20)))`: at most 20, `min(n, 20)` for non-negative `n`, 0 otherwise |
| ApiMain.PlaceholderTag | api/main.py:200-208 | placeholder entry `i` is the fixed prefix followed by the decimal number `i + 1` |
| ApiMain.MockSpec | api/main.py:193-208 | REAL exactly when the digest's last hex digit is even; confidence `85 + (16 * d0 + d1) % 15`, between 85 and 99; both lists have `min(n, 20)` entries; the fixed video placeholder |
| ApiMain.VerdictOf | api/main.py:169 | REAL exactly for prediction 0 |
| ApiMain.MlReportSpec | api/main.py:140-178 | if any stage raises, the report is the mock's for the same upload; otherwise REAL exactly for class 0, the confidence is 100 times the predicted probability and no smaller than any class's, and there are `min(|frames|, 20) <= n` frame paths and `min(|faces|, 20)` face paths, both at least one |
| ApiMain.AssembledSpec | api/main.py:155-174 | the successful report says REAL exactly for class 0, carries 100 times the confidence, and lists `min(count, 20)` paths of each kind, the `i`-th naming image `i` |
| ApiMain.ListPaths | api/main.py:158-166 | one `/static/<kind>_<i>_<stamp>.jpg` path for each of the first 20 items, in order |
| ApiMain.ProcessVideoWithMl | api/main.py:140-178 | the method runs extraction, detection and prediction and assembles the report as specified |
| ApiMain.AssembleReport | api/main.py:154-174 | the path loops and the result dictionary give the successful report |
| ApiMain.Service.constructor | api/main.py:14-59 | `ML_AVAILABLE` ends set exactly when the modules imported and `load_model` did not raise, and then the model is the loaded one |
| ApiMain.Service.PredictDeepfake | api/main.py:98-126 | a missing or non-`video/` content type is rejected with 400 before the length check; then a length outside 10..100 with 400; otherwise the real report when ML is available and a model is loaded, the mock otherwise, with `frames_analyzed` the requested length |
| ApiMain.CompletedLists | api/main.py:158-208 | for a valid length, the real path lists 1 to 20 frame paths and the mock exactly `min(n, 20)`, at least one |

## Left out

- OpenCV capture, seek, read and BGR-to-RGB conversion are one oracle per video position (`Video.read`). `CAP_PROP_FRAME_COUNT` is a `nat`: a negative count is not modelled.
- `np.linspace` is modelled in exact integer arithmetic. Float rounding of `i * (total - 1) / (num - 1)` just below an integer is not modelled.
- Random sampling is a nondeterministic choice of distinct in-range positions. The distribution is not modelled.
- `face_recognition.face_locations`, the half-size `cv2.resize` before it, and the Haar cascade with its grayscale conversion are oracles. The `model`, `scale_factor`, `min_neighbors` and (in `backend/`) `min_face_size` arguments only configure these oracles; `backend/` passes `min_face_size` to the cascade as `minSize` (backend/video_processor.py:97), so its size limit lives inside the oracle.
- Images have rank 2 or 3 only. Rank-1 and higher-rank arrays, sample values and interpolation are not represented.
- The backbone, the LSTM, the classification head and softmax are uninterpreted functions. The LSTM is given by its output at the last time step. That softmax yields a probability distribution with two entries is a hypothesis of the lemmas that need it (`Inference.TwoClasses`, `Inference.Distribution`, `Inference.TwoClassDistribution`), not a property of the oracle; summing to one is exact, not within float tolerance. Dropout, device placement and `torch.no_grad` have no effect on the model.
- `get_transform` (PIL conversion, resize to 224 by 224, normalisation) is an oracle that may raise. `preprocess_face` is not used by the pipeline and is not modelled.
- `load_model` (path search, `torch.load`, checkpoint formats) is not modelled. Its outcome is the constructor's `loaded` argument.
- The MD5 digest of the first 1024 bytes is taken as input, `Upload.digest`. Opening and reading the file, and its failure, are not modelled.
- FastAPI routing, CORS, static mounting, `get_static_file`, the root and health endpoints, the temporary file copy and unlink, and `startup_event` cleanup are HTTP and filesystem plumbing.
- The HTTP 500 path is not modelled, so neither are the exceptions it catches: a missing filename, file I/O, a failing mock.
- `processing_time` is not modelled; it needs the wall clock.
- The clock is read once, as `stamp`. The code reads `time.time()` for every path, so paths written across a second boundary can carry different stamps.
- ApiMain.MlReport: the confidence is the probability times 100, without `round(..., 2)`. Float rounding is not modelled.
- `save_frames`, `get_video_info`, the `async` wrappers and the `__main__` demo blocks are not modelled: disk writes, float durations and script entry points.
