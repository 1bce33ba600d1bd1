/** Option and Result, and the exceptions the inference pipeline raises. */
module Wrappers {

  datatype Option<+T> = None | Some(value: T)

  /** Why a stage of the pipeline raised. Each constructor stands for one `raise`
      (or one library call that raises) in the pipeline's code. */
  datatype Error =
    | CouldNotOpenVideo        // cv2.VideoCapture did not open the file
    | VideoHasNoFrames         // the frame count is zero
    | NegativeSampleCount      // numpy refuses a negative number of samples
    | UnknownMethod            // a sampling method other than 'uniform' or 'random'
    | NoFramesExtracted        // every seek/read failed
    | ResizeFailed             // cv2.resize of an empty image, or to an empty size
    | NoFaceImages             // predict_video was given no images
    | NoImagesProcessed        // every image failed the transform
    | EmptyProbabilities       // argmax over a tensor with no elements

  datatype Result<+R> = Ok(value: R) | Err(error: Error)
}
