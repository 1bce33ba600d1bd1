/** `api/ml_model.py`: `predict_video` and `predict_batch`. */
module ApiModel {
  import opened Wrappers
  import opened Images
  import opened Inference

  /** The answer `predict_batch` records for a video whose prediction raised. */
  const Uncertain: Prediction := Prediction(0, 0.5)

  /** `predict_video` (lines 138-194). */
  method PredictVideo(net: Network, faceImages: seq<Image>) returns (r: Result<Prediction>)
    ensures r == Classify(net, faceImages)
  {
    if faceImages == [] {
      return Err(NoFaceImages);
    }
    var processedImages := PreprocessAll(net, faceImages);
    if processedImages == [] {
      return Err(NoImagesProcessed);
    }
    var logits := Forward(net, processedImages);
    var probabilities := net.softmax(logits);
    r := Decide(probabilities);
  }

  /** What `predict_batch` records for one video. */
  function BatchEntry(r: Result<Prediction>): (p: Prediction)
    ensures r.Ok? ==> p == r.value
    ensures r.Err? ==> p == Uncertain
  {
    if r.Ok? then r.value else Uncertain
  }

  /** `predict_batch` (lines 196-222): one answer per video, in order; a video
      whose prediction raised is reported as class 0 with probability one half. */
  method PredictBatch(net: Network, videoSequences: seq<seq<Image>>) returns (results: seq<Prediction>)
    ensures |results| == |videoSequences|
    ensures forall i :: 0 <= i < |videoSequences| && Classify(net, videoSequences[i]).Ok? ==>
      results[i] == Classify(net, videoSequences[i]).value
    ensures forall i :: 0 <= i < |videoSequences| && Classify(net, videoSequences[i]).Err? ==>
      results[i] == Uncertain
  {
    results := [];
    for i := 0 to |videoSequences|
      invariant |results| == i
      invariant forall j :: 0 <= j < i ==> results[j] == BatchEntry(Classify(net, videoSequences[j]))
    {
      var r := PredictVideo(net, videoSequences[i]);
      match r {
        case Ok(p) => results := results + [p];
        case Err(_) => results := results + [Uncertain];
      }
    }
  }
}
