/** `api/main.py`: the `/api/predict/` endpoint. It validates the upload,
    runs the real pipeline when the ML modules and the model loaded and the
    mock predictor otherwise, and assembles the JSON report. */
module ApiMain {
  import opened Wrappers
  import opened Seqs
  import opened Images
  import opened Sampling
  import opened Inference
  import opened Text
  import ApiVideoProcessor
  import ApiModel

  datatype Verdict = REAL | FAKE

  /** The JSON body of a successful response, without `processing_time`.
      `framesAnalyzed` is absent until `predict_deepfake` adds it. */
  datatype Report = Report(
    output: Verdict,
    confidence: real,
    preprocessedImages: seq<string>,
    facesCroppedImages: seq<string>,
    originalVideo: string,
    framesAnalyzed: Option<int>)

  /** An uploaded file: its declared content type, the video it holds, and the
      MD5 hex digest of its first 1024 bytes. */
  datatype Upload = Upload(contentType: Option<string>, video: Video, digest: string)

  datatype Response = Rejected(status: nat, detail: string) | Completed(report: Report)

  /** How many images are listed for display. */
  const DisplayLimit: nat := 20

  const MinSequenceLength: int := 10
  const MaxSequenceLength: int := 100

  const FramePlaceholder: string := "https://via.placeholder.com/224x224/a855f7/ffffff?text=Frame+"
  const FacePlaceholder: string := "https://via.placeholder.com/224x224/ec4899/ffffff?text=Face+"
  const VideoPlaceholder: string := "https://via.placeholder.com/640x480/6b21a8/ffffff?text=Video"

  /** `len(range(min(n, 20)))`. */
  function PlaceholderCount(n: int): (k: nat)
    ensures k <= DisplayLimit
    ensures 0 <= n ==> k == Min(n, DisplayLimit)
    ensures n <= 0 ==> k == 0
  {
    Max(0, Min(n, DisplayLimit))
  }

  /** The placeholder URLs numbered from 1. */
  function Placeholders(prefix: string, count: nat): (r: seq<string>)
    ensures |r| == count
  {
    seq(count, i requires 0 <= i < count => prefix + Decimal(i + 1))
  }

  /** Entry `i` of a placeholder list is the prefix followed by the number `i + 1`. */
  lemma PlaceholderTag(prefix: string, count: nat, i: nat)
    requires i < count
    ensures var entry := Placeholders(prefix, count)[i];
      |prefix| < |entry| && entry[..|prefix|] == prefix &&
      (forall j :: |prefix| <= j < |entry| ==> IsDecimalDigit(entry[j])) &&
      DecimalValue(entry[|prefix|..]) == i + 1
  {
    var entry := Placeholders(prefix, count)[i];
    assert entry[|prefix|..] == Decimal(i + 1);
    DecimalRoundTrip(i + 1);
  }

  /** `mock_process_video` (lines 180-216) given the file's digest. */
  function Mock(digest: string, sequenceLength: int): Report
    requires IsDigest(digest)
  {
    var isReal := HexValue(digest) % 2 == 0;
    var baseConfidence := 85 + HexValue(digest[..2]) % 15;
    var count := PlaceholderCount(sequenceLength);
    Report(if isReal then REAL else FAKE, baseConfidence as real,
           Placeholders(FramePlaceholder, count), Placeholders(FacePlaceholder, count),
           VideoPlaceholder, None)
  }

  /** The mock says REAL exactly when the digest's last hex digit is even; its
      confidence is 85 plus the first two hex digits modulo 15, so between 85
      and 99; both lists hold `min(sequence_length, 20)` placeholders. */
  lemma MockSpec(digest: string, sequenceLength: int)
    requires IsDigest(digest)
    ensures Mock(digest, sequenceLength).output == REAL <==> HexDigitValue(digest[31]) % 2 == 0
    ensures Mock(digest, sequenceLength).confidence ==
      (85 + (16 * HexDigitValue(digest[0]) + HexDigitValue(digest[1])) % 15) as real
    ensures 85.0 <= Mock(digest, sequenceLength).confidence <= 99.0
    ensures |Mock(digest, sequenceLength).preprocessedImages| == PlaceholderCount(sequenceLength)
    ensures |Mock(digest, sequenceLength).facesCroppedImages| == PlaceholderCount(sequenceLength)
    ensures Mock(digest, sequenceLength).originalVideo == VideoPlaceholder
  {
    HexParity(digest);
    var head := digest[..2];
    assert IsHex(head);
    HexPair(head);
  }

  /** The name a saved image gets, as served under `/static/`. */
  function StaticPath(kind: string, i: nat, stamp: nat): string
  {
    "/static/" + kind + "_" + Decimal(i) + "_" + Decimal(stamp) + ".jpg"
  }

  function VideoPath(stamp: nat): string
  {
    "/static/video_" + Decimal(stamp) + ".mp4"
  }

  /** "REAL" if prediction == 0 else "FAKE". */
  function VerdictOf(prediction: nat): (v: Verdict)
    ensures v == REAL <==> prediction == 0
  {
    if prediction == 0 then REAL else FAKE
  }

  /** What `process_video_with_ml` returns (lines 140-178): the stages run in
      order, and any stage that raises yields the mock report instead. The
      clock is read once, as `stamp`. */
  function MlReport(video: Video, digest: string, sequenceLength: int, net: Network,
                    d: ApiVideoProcessor.LandmarkDetector, stamp: nat): Report
    requires IsDigest(digest)
  {
    match ApiVideoProcessor.ExtractUniform(video, sequenceLength)
    case Err(_) => Mock(digest, sequenceLength)
    case Ok(frames) =>
      match ApiVideoProcessor.LocatedFaces(d, ApiVideoProcessor.DefaultMinFaceSize, frames)
      case Err(_) => Mock(digest, sequenceLength)
      case Ok(faces) =>
        match Classify(net, faces)
        case Err(_) => Mock(digest, sequenceLength)
        case Ok(p) => Assembled(|frames|, |faces|, p, stamp)
  }

  /** The paths of the first `min(count, 20)` saved images of one kind. */
  function Paths(kind: string, count: nat, stamp: nat): seq<string>
  {
    seq(Min(count, DisplayLimit), i requires 0 <= i < Min(count, DisplayLimit) => StaticPath(kind, i, stamp))
  }

  /** The dictionary `process_video_with_ml` returns on success (lines 168-174). */
  function Assembled(frameCount: nat, faceCount: nat, p: Prediction, stamp: nat): Report
  {
    Report(VerdictOf(p.prediction), p.confidence * 100.0,
           Paths("frame", frameCount, stamp), Paths("face", faceCount, stamp), VideoPath(stamp), None)
  }

  /** The real path either completes, with the verdict and the probability of
      the predicted class, one frame path for each of the first twenty frames
      and one face path for each of the first twenty faces; or some stage
      raised, and the report is exactly the mock's for the same upload. */
  lemma MlReportSpec(video: Video, digest: string, sequenceLength: int, net: Network,
                     d: ApiVideoProcessor.LandmarkDetector, stamp: nat)
    requires IsDigest(digest)
    ensures var frames := ApiVideoProcessor.ExtractUniform(video, sequenceLength);
      var faces := if frames.Ok? then ApiVideoProcessor.LocatedFaces(d, ApiVideoProcessor.DefaultMinFaceSize, frames.value)
                   else Err(frames.error);
      var answer := if faces.Ok? then Classify(net, faces.value) else Err(faces.error);
      var report := MlReport(video, digest, sequenceLength, net, d, stamp);
      (answer.Err? ==> report == Mock(digest, sequenceLength)) &&
      (answer.Ok? ==>
        (report.output == REAL <==> answer.value.prediction == 0) &&
        report.confidence == 100.0 * Probabilities(net, faces.value)[answer.value.prediction] &&
        (forall j :: 0 <= j < |Probabilities(net, faces.value)| ==>
          100.0 * Probabilities(net, faces.value)[j] <= report.confidence) &&
        1 <= |report.preprocessedImages| == Min(|frames.value|, DisplayLimit) <= sequenceLength &&
        1 <= |report.facesCroppedImages| == Min(|faces.value|, DisplayLimit) &&
        (forall i :: 0 <= i < |report.preprocessedImages| ==> report.preprocessedImages[i] == StaticPath("frame", i, stamp)) &&
        (forall i :: 0 <= i < |report.facesCroppedImages| ==> report.facesCroppedImages[i] == StaticPath("face", i, stamp)) &&
        report.originalVideo == VideoPath(stamp) && report.framesAnalyzed.None?)
  {
    var frames := ApiVideoProcessor.ExtractUniform(video, sequenceLength);
    if frames.Ok? {
      ApiVideoProcessor.ExtractUniformSpec(video, sequenceLength);
      assert 1 <= |frames.value| <= sequenceLength;
      var faces := ApiVideoProcessor.LocatedFaces(d, ApiVideoProcessor.DefaultMinFaceSize, frames.value);
      ApiVideoProcessor.LocatedFacesNonEmpty(d, ApiVideoProcessor.DefaultMinFaceSize, frames.value);
      if faces.Ok? {
        var answer := Classify(net, faces.value);
        if answer.Ok? {
          ClassifySpec(net, faces.value);
          assert MlReport(video, digest, sequenceLength, net, d, stamp) ==
            Assembled(|frames.value|, |faces.value|, answer.value, stamp);
          AssembledSpec(|frames.value|, |faces.value|, answer.value, stamp);
        }
      }
    }
  }

  /** The successful report lists `min(count, 20)` paths of each kind, the
      `i`-th naming image `i`, and says REAL exactly for class 0. */
  lemma AssembledSpec(frameCount: nat, faceCount: nat, p: Prediction, stamp: nat)
    ensures var report := Assembled(frameCount, faceCount, p, stamp);
      (report.output == REAL <==> p.prediction == 0) && report.confidence == 100.0 * p.confidence &&
      |report.preprocessedImages| == Min(frameCount, DisplayLimit) &&
      |report.facesCroppedImages| == Min(faceCount, DisplayLimit) &&
      (forall i :: 0 <= i < |report.preprocessedImages| ==> report.preprocessedImages[i] == StaticPath("frame", i, stamp)) &&
      (forall i :: 0 <= i < |report.facesCroppedImages| ==> report.facesCroppedImages[i] == StaticPath("face", i, stamp)) &&
      report.originalVideo == VideoPath(stamp) && report.framesAnalyzed.None?
  {
  }

  /** The paths listed for the first `min(|items|, 20)` items, built by the
      `for i, _ in enumerate(items[:20])` loops of lines 158-166. */
  method ListPaths<T>(kind: string, items: seq<T>, stamp: nat) returns (paths: seq<string>)
    ensures |paths| == Min(|items|, DisplayLimit)
    ensures forall i :: 0 <= i < |paths| ==> paths[i] == StaticPath(kind, i, stamp)
  {
    paths := [];
    var shown := Take(items, DisplayLimit);
    for i := 0 to |shown|
      invariant |paths| == i
      invariant forall j :: 0 <= j < i ==> paths[j] == StaticPath(kind, j, stamp)
    {
      paths := paths + ["/static/" + kind + "_" + Decimal(i) + "_" + Decimal(stamp) + ".jpg"];
    }
  }

  /** `process_video_with_ml` (lines 140-178). */
  method ProcessVideoWithMl(video: Video, digest: string, sequenceLength: int, net: Network,
                            d: ApiVideoProcessor.LandmarkDetector, stamp: nat) returns (result: Report)
    requires IsDigest(digest)
    ensures result == MlReport(video, digest, sequenceLength, net, d, stamp)
  {
    var frames := ApiVideoProcessor.ExtractFrames(video, sequenceLength, "uniform");
    assert frames == ApiVideoProcessor.ExtractUniform(video, sequenceLength);
    if frames.Err? {
      return Mock(digest, sequenceLength);
    }
    var faceImages := ApiVideoProcessor.DetectFaces(frames.value, d, ApiVideoProcessor.DefaultMinFaceSize);
    if faceImages.Err? {
      return Mock(digest, sequenceLength);
    }
    var answer := ApiModel.PredictVideo(net, faceImages.value);
    if answer.Err? {
      return Mock(digest, sequenceLength);
    }
    assert MlReport(video, digest, sequenceLength, net, d, stamp) ==
      Assembled(|frames.value|, |faceImages.value|, answer.value, stamp);
    result := AssembleReport(frames.value, faceImages.value, answer.value, stamp);
  }

  /** Lines 154-174 of `process_video_with_ml`: the path lists and the result dictionary. */
  method AssembleReport(frames: seq<Image>, faceImages: seq<Image>, answer: Prediction, stamp: nat) returns (result: Report)
    ensures result == Assembled(|frames|, |faceImages|, answer, stamp)
  {
    var preprocessedPaths := ListPaths("frame", frames, stamp);
    var facePaths := ListPaths("face", faceImages, stamp);
    assert preprocessedPaths == Paths("frame", |frames|, stamp);
    assert facePaths == Paths("face", |faceImages|, stamp);
    result := Report(if answer.prediction == 0 then REAL else FAKE, answer.confidence * 100.0,
                     preprocessedPaths, facePaths, VideoPath(stamp), None);
  }

  /** A content type `predict_deepfake` accepts: present, non-empty, and starting with "video/". */
  predicate IsVideoType(contentType: Option<string>)
  {
    contentType.Some? && contentType.value != [] && "video/" <= contentType.value
  }

  /** The module-level state of `api/main.py`: `ML_AVAILABLE` and `model`. */
  class Service {
    var mlAvailable: bool
    var model: Option<Network>
    const detector: ApiVideoProcessor.LandmarkDetector

    /** Module start-up (lines 14-25 and 52-59): `ML_AVAILABLE` is set when the ML
        modules import, then cleared again when `load_model` raises (`loaded`
        is `None`); the model is kept only when both succeeded. */
    constructor (modulesImported: bool, loaded: Option<Network>, detector: ApiVideoProcessor.LandmarkDetector)
      ensures mlAvailable == (modulesImported && loaded.Some?)
      ensures mlAvailable <==> model.Some?
      ensures model.Some? ==> model == loaded
      ensures this.detector == detector
    {
      this.detector := detector;
      mlAvailable := false;
      model := None;
      new;
      if modulesImported {
        mlAvailable := true;
      }
      if mlAvailable {
        match loaded {
          case Some(m) => model := Some(m);
          case None => mlAvailable := false;
        }
      }
    }

    /** `predict_deepfake` (lines 81-138): reject a non-video upload, then a
        sequence length outside 10..100; otherwise run the real path when
        `ML_AVAILABLE` and `model` are both set and the mock otherwise, and
        record the requested length as `frames_analyzed`. */
    method PredictDeepfake(upload: Upload, sequenceLength: int, stamp: nat) returns (response: Response)
      requires IsDigest(upload.digest)
      ensures !IsVideoType(upload.contentType) ==> response == Rejected(400, "File must be a video")
      ensures IsVideoType(upload.contentType) && !(MinSequenceLength <= sequenceLength <= MaxSequenceLength) ==>
        response == Rejected(400, "Sequence length must be between 10 and 100")
      ensures IsVideoType(upload.contentType) && MinSequenceLength <= sequenceLength <= MaxSequenceLength ==>
        response.Completed? && response.report.framesAnalyzed == Some(sequenceLength)
      ensures response.Completed? && mlAvailable && model.Some? ==>
        response.report == MlReport(upload.video, upload.digest, sequenceLength, model.value, detector, stamp)
          .(framesAnalyzed := Some(sequenceLength))
      ensures response.Completed? && !(mlAvailable && model.Some?) ==>
        response.report == Mock(upload.digest, sequenceLength).(framesAnalyzed := Some(sequenceLength))
    {
      if !(upload.contentType.Some? && upload.contentType.value != []) || !("video/" <= upload.contentType.value) {
        return Rejected(400, "File must be a video");
      }
      if !(10 <= sequenceLength <= 100) {
        return Rejected(400, "Sequence length must be between 10 and 100");
      }
      var result: Report;
      if mlAvailable && model.Some? {
        result := ProcessVideoWithMl(upload.video, upload.digest, sequenceLength, model.value, detector, stamp);
      } else {
        result := Mock(upload.digest, sequenceLength);
      }
      result := result.(framesAnalyzed := Some(sequenceLength));
      response := Completed(result);
    }
  }

  /** Every completed response reports between one and twenty frame images,
      and the mock lists exactly `min(sequence_length, 20)` of them. */
  lemma CompletedLists(video: Video, digest: string, sequenceLength: int, net: Network,
                       d: ApiVideoProcessor.LandmarkDetector, stamp: nat)
    requires IsDigest(digest)
    requires MinSequenceLength <= sequenceLength <= MaxSequenceLength
    ensures 1 <= |MlReport(video, digest, sequenceLength, net, d, stamp).preprocessedImages| <= DisplayLimit
    ensures 1 <= |Mock(digest, sequenceLength).preprocessedImages| == Min(sequenceLength, DisplayLimit)
  {
    MlReportSpec(video, digest, sequenceLength, net, d, stamp);
  }
}
