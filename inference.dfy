/** What `predict_video` computes, as `api/ml_model.py` and `backend/ml_model.py`
    both define it: convert each face image to three channels, transform it,
    skip the images the transform refuses, run the ResNeXt backbone on every
    frame and the LSTM over the sequence, and report the first most probable
    class together with its probability. The networks themselves are oracles. */
module Inference {
  import opened Wrappers
  import opened Seqs
  import opened Images

  /** A tensor, flattened. */
  type Vector = seq<real>

  /** A loaded `DeepfakeDetector` together with `get_transform()`.
      `transform` is `None` when the transform raised on the image;
      `backbone` is the ResNeXt-50 feature extractor run on one frame;
      `temporal` is the bidirectional LSTM's output at the last step of a sequence;
      `head` is the final fully connected block; `softmax` is `torch.softmax` over the classes. */
  datatype Network = Network(
    transform: Image -> Option<Vector>,
    backbone: Vector -> Vector,
    temporal: seq<Vector> -> Vector,
    head: Vector -> Vector,
    softmax: Vector -> Vector)

  /** How many channels an image has once it is rank 3. */
  predicate HasChannels(img: Image, n: nat)
  {
    img.layout.Color? && |img.layout.planes| == n
  }

  /** The "convert to RGB if needed" step: a rank-2 image is stacked three times
      along a new last axis, a four-channel image loses its last channel, and
      any other image is left as it is. */
  function ToRgb(img: Image): (r: Image)
    ensures r.height == img.height && r.width == img.width
    ensures r.layout.Color?
    ensures img.layout.Gray? ==> HasChannels(r, 3) && forall c :: 0 <= c < 3 ==> r.layout.planes[c] == img.layout.plane
    ensures HasChannels(img, 4) ==> HasChannels(r, 3) && forall c :: 0 <= c < 3 ==> r.layout.planes[c] == img.layout.planes[c]
    ensures img.layout.Color? && |img.layout.planes| != 4 ==> r == img
  {
    match img.layout
    case Gray(p) => Image(img.height, img.width, Color([p, p, p]))
    case Color(ps) => if |ps| == 4 then Image(img.height, img.width, Color(ps[..3])) else img
  }

  /** Converting twice is converting once; the result has three channels exactly
      when the image was rank 2 or had three or four channels. */
  lemma ToRgbIdempotent(img: Image)
    ensures ToRgb(ToRgb(img)) == ToRgb(img)
    ensures HasChannels(ToRgb(img), 3) <==> img.layout.Gray? || HasChannels(img, 3) || HasChannels(img, 4)
  {
  }

  /** One iteration of the preprocessing loop. */
  function Preprocess(net: Network, img: Image): Option<Vector>
  {
    net.transform(ToRgb(img))
  }

  function PreprocessStep(net: Network): Image -> Option<Vector>
  {
    img => Preprocess(net, img)
  }

  /** `processed_images`: the transformed images, skipping those that raised. */
  function ModelInput(net: Network, images: seq<Image>): seq<Vector>
  {
    FilterMap(images, PreprocessStep(net))
  }

  /** The model sees one tensor per image that the transform accepted, in image
      order, and nothing else; it sees none exactly when the transform refused
      every image. */
  lemma ModelInputSpec(net: Network, images: seq<Image>)
    ensures ModelInput(net, images) == [] <==> forall i :: 0 <= i < |images| ==> Preprocess(net, images[i]).None?
    ensures var kept := Survivors(images, PreprocessStep(net));
      var xs := ModelInput(net, images);
      |kept| == |xs| <= |images| && StrictlyIncreasing(kept) &&
      (forall k :: 0 <= k < |kept| ==> kept[k] < |images| && Preprocess(net, images[kept[k]]) == Some(xs[k])) &&
      (forall i :: 0 <= i < |images| && Preprocess(net, images[i]).Some? ==> i in kept)
  {
    FilterMapEmpty(images, PreprocessStep(net));
    FilterMapInOrder(images, PreprocessStep(net));
  }

  /** Lines 54-56 of `forward`: the batch is flattened to frames, the backbone
      runs on each frame, and the result is regrouped into the sequence. */
  function Features(net: Network, xs: seq<Vector>): (r: seq<Vector>)
    ensures |r| == |xs|
  {
    seq(|xs|, i requires 0 <= i < |xs| => net.backbone(xs[i]))
  }

  /** The backbone sees each frame on its own: the features of a longer
      sequence extend the features of its prefix, and a frame's feature depends
      on that frame alone. */
  lemma FeaturesPerFrame(net: Network, xs: seq<Vector>, ys: seq<Vector>)
    ensures Features(net, xs + ys) == Features(net, xs) + Features(net, ys)
    ensures forall i :: 0 <= i < |xs| ==> Features(net, xs)[i] == Features(net, [xs[i]])[0]
  {
    assert forall i :: 0 <= i < |xs| + |ys| ==>
      Features(net, xs + ys)[i] == (Features(net, xs) + Features(net, ys))[i];
  }

  /** `forward`: the head applied to the LSTM's output at the last frame. */
  function Forward(net: Network, xs: seq<Vector>): Vector
  {
    net.head(net.temporal(Features(net, xs)))
  }

  /** The frames reach the logits only through their per-frame features: two
      sequences whose frames have the same features give the same logits. */
  lemma ForwardThroughFeatures(net: Network, xs: seq<Vector>, ys: seq<Vector>)
    requires |xs| == |ys|
    requires forall i :: 0 <= i < |xs| ==> net.backbone(xs[i]) == net.backbone(ys[i])
    ensures Forward(net, xs) == Forward(net, ys)
  {
    assert Features(net, xs) == Features(net, ys);
  }

  /** `(prediction, confidence)`: 0 for real, 1 for fake. */
  datatype Prediction = Prediction(prediction: nat, confidence: real)

  /** `torch.argmax(probabilities)` and the probability there; argmax of an
      empty tensor raises. */
  function Decide(probs: Vector): (r: Result<Prediction>)
    ensures r.Err? <==> probs == []
    ensures r.Err? ==> r.error == EmptyProbabilities
    ensures r.Ok? ==> r.value.prediction < |probs| && r.value.confidence == probs[r.value.prediction]
    ensures r.Ok? ==> forall j :: 0 <= j < |probs| ==> probs[j] <= r.value.confidence
    ensures r.Ok? ==> forall j :: 0 <= j < r.value.prediction ==> probs[j] < r.value.confidence
  {
    if probs == [] then Err(EmptyProbabilities)
    else
      var k := ArgMax(probs);
      Ok(Prediction(k, probs[k]))
  }

  /** The classification head ends in a linear layer with `num_classes = 2`
      outputs, and softmax keeps the length: every probability vector has two
      entries, 0 for real and 1 for fake. */
  ghost predicate TwoClasses(net: Network)
  {
    forall v :: |net.softmax(v)| == 2
  }

  /** The probabilities `predict_video` reads its answer from. */
  function Probabilities(net: Network, faces: seq<Image>): Vector
  {
    net.softmax(Forward(net, ModelInput(net, faces)))
  }

  /** `predict_video`: raises without images, raises when every image fails
      preprocessing, and otherwise decides on the probabilities of the sequence. */
  function Classify(net: Network, faces: seq<Image>): Result<Prediction>
  {
    if faces == [] then Err(NoFaceImages)
    else if ModelInput(net, faces) == [] then Err(NoImagesProcessed)
    else Decide(Probabilities(net, faces))
  }

  /** The three ways `predict_video` raises, each exactly when its cause holds,
      and on success the first most probable class with its probability. */
  lemma ClassifySpec(net: Network, faces: seq<Image>)
    ensures Classify(net, faces) == Err(NoFaceImages) <==> faces == []
    ensures Classify(net, faces) == Err(NoImagesProcessed) <==>
      faces != [] && forall i :: 0 <= i < |faces| ==> Preprocess(net, faces[i]).None?
    ensures Classify(net, faces) == Err(EmptyProbabilities) <==>
      faces != [] && ModelInput(net, faces) != [] && Probabilities(net, faces) == []
    ensures Classify(net, faces).Ok? ==>
      var probs := Probabilities(net, faces);
      var p := Classify(net, faces).value;
      p.prediction < |probs| && p.confidence == probs[p.prediction] &&
      (forall j :: 0 <= j < |probs| ==> probs[j] <= p.confidence) &&
      (forall j :: 0 <= j < p.prediction ==> probs[j] < p.confidence)
  {
    ModelInputSpec(net, faces);
  }

  /** With the two-class head, argmax never meets an empty tensor: `predict_video`
      succeeds exactly when some image survives preprocessing, and then answers
      0 (real) or 1 (fake), class 1 only when it is strictly more probable. */
  lemma ClassifyTwoClasses(net: Network, faces: seq<Image>)
    requires TwoClasses(net)
    ensures Classify(net, faces) != Err(EmptyProbabilities)
    ensures Classify(net, faces).Ok? <==> faces != [] && ModelInput(net, faces) != []
    ensures Classify(net, faces).Ok? ==>
      var probs := Probabilities(net, faces);
      var p := Classify(net, faces).value;
      p.prediction <= 1 && (p.prediction == 1 <==> probs[0] < probs[1])
  {
    var probs := Probabilities(net, faces);
    assert |probs| == 2;
  }

  /** `torch.softmax` yields a probability distribution: every entry lies in [0, 1]. */
  ghost predicate Distribution(net: Network)
  {
    forall v, i :: 0 <= i < |net.softmax(v)| ==> 0.0 <= net.softmax(v)[i] <= 1.0
  }

  /** Over the two-output head, softmax yields two non-negative probabilities summing to one. */
  ghost predicate TwoClassDistribution(net: Network)
  {
    forall v :: |net.softmax(v)| == 2 && 0.0 <= net.softmax(v)[0] && 0.0 <= net.softmax(v)[1] &&
      net.softmax(v)[0] + net.softmax(v)[1] == 1.0
  }

  /** When softmax yields a distribution, the confidence `predict_video` reports
      is a probability, between 0 and 1. */
  lemma ClassifyConfidence(net: Network, faces: seq<Image>)
    requires Distribution(net)
    ensures Classify(net, faces).Ok? ==> 0.0 <= Classify(net, faces).value.confidence <= 1.0
  {
  }

  /** With two classes whose probabilities sum to one, the confidence of the
      predicted class is at least one half. */
  lemma {:induction false} ClassifyConfidenceHalf(net: Network, faces: seq<Image>)
    requires TwoClassDistribution(net)
    ensures Classify(net, faces).Ok? ==> 0.5 <= Classify(net, faces).value.confidence <= 1.0
  {
    if Classify(net, faces).Ok? {
      var probs := Probabilities(net, faces);
      assert |probs| == 2 && probs[0] + probs[1] == 1.0 && 0.0 <= probs[0] && 0.0 <= probs[1];
      var p := Classify(net, faces).value;
      assert p.confidence >= probs[0] && p.confidence >= probs[1];
    }
  }

  /** The answer depends on the images only through the tensors the transform
      produced: images the transform refuses can be dropped without changing it. */
  lemma ClassifyIgnoresRefused(net: Network, faces: seq<Image>, img: Image)
    requires Preprocess(net, img).None?
    requires faces != []
    ensures Classify(net, faces + [img]) == Classify(net, faces)
  {
    FilterMapSnoc(faces, img, PreprocessStep(net));
    assert ModelInput(net, faces + [img]) == ModelInput(net, faces) + [] == ModelInput(net, faces);
  }

  /** The preprocessing loop of `predict_video` (lines 161-178 of `api/ml_model.py`,
      140-156 of `backend/ml_model.py`). */
  method PreprocessAll(net: Network, faceImages: seq<Image>) returns (processed: seq<Vector>)
    ensures processed == ModelInput(net, faceImages)
  {
    processed := [];
    for i := 0 to |faceImages|
      invariant processed == FilterMap(faceImages[..i], PreprocessStep(net))
    {
      FilterMapPrefix(faceImages, i, PreprocessStep(net));
      var img := faceImages[i];
      match img.layout {
        case Gray(p) =>
          img := Image(img.height, img.width, Color([p, p, p]));
        case Color(ps) =>
          if |ps| == 4 {
            img := Image(img.height, img.width, Color(ps[..3]));
          }
      }
      var tensor := net.transform(img);
      if tensor.Some? {
        processed := processed + [tensor.value];
      }
    }
    assert faceImages[..|faceImages|] == faceImages;
  }
}
