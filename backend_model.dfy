/** `backend/ml_model.py`: `predict_video`, the same computation as in the api. */
module BackendModel {
  import opened Wrappers
  import opened Images
  import opened Inference

  /** `predict_video` (lines 117-172). */
  method PredictVideo(net: Network, faceImages: seq<Image>) returns (r: Result<Prediction>)
    ensures r == Classify(net, faceImages)
  {
    if faceImages == [] {
      return Err(NoFaceImages);
    }
    var processedImages := PreprocessAll(net, faceImages);
    if processedImages == [] {
      return Err(NoImagesProcessed);
    }
    var probabilities := net.softmax(Forward(net, processedImages));
    r := Decide(probabilities);
  }
}
