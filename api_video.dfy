/** `api/video_processor.py`: frame extraction with a strict method name, and
    face cropping with the landmark detector (half-resolution retry, minimum
    face size, padding of a fifth of the box height, center-crop fallback for
    every frame). */
module ApiVideoProcessor {
  import opened Wrappers
  import opened Seqs
  import opened Images
  import opened Sampling

  /** The side of the center crops used when no frame yields a face. */
  const FallbackSize: nat := 224

  /** The default `min_face_size` of `detect_faces`. */
  const DefaultMinFaceSize: int := 50

  /** `extract_frames(video, num_frames, 'uniform')` as a function of the video. */
  function ExtractUniform(video: Video, numFrames: int): Result<seq<Image>>
  {
    if !video.isOpen then Err(CouldNotOpenVideo)
    else if video.frameCount == 0 then Err(VideoHasNoFrames)
    else if numFrames < 0 then Err(NegativeSampleCount)
    else FramesAt(video, UniformIndices(video.frameCount, numFrames))
  }

  /** Uniform extraction raises for an unopened or empty video and for a negative
      count, and otherwise when no read succeeds; it returns at most `numFrames`
      frames, read at non-decreasing positions inside the video. */
  lemma ExtractUniformSpec(video: Video, numFrames: int)
    ensures ExtractUniform(video, numFrames).Err? <==>
      !video.isOpen || video.frameCount == 0 || numFrames < 0 ||
      forall k :: 0 <= k < numFrames ==> video.read(UniformIndices(video.frameCount, numFrames)[k]).None?
    ensures ExtractUniform(video, numFrames).Ok? ==> 1 <= |ExtractUniform(video, numFrames).value| <= numFrames
    ensures ExtractUniform(video, numFrames).Ok? ==>
      var positions := UniformIndices(video.frameCount, numFrames);
      var kept := Survivors(positions, video.read);
      |kept| == |ExtractUniform(video, numFrames).value| &&
      forall k :: 0 <= k < |kept| ==>
        kept[k] < numFrames && positions[kept[k]] < video.frameCount &&
        (k > 0 ==> positions[kept[k - 1]] <= positions[kept[k]]) &&
        video.read(positions[kept[k]]) == Some(ExtractUniform(video, numFrames).value[k])
  {
    if video.isOpen && video.frameCount > 0 && numFrames >= 0 {
      var positions := UniformIndices(video.frameCount, numFrames);
      UniformIndicesSpec(video.frameCount, numFrames);
      FramesAtSpec(video, positions);
    }
  }

  /** `extract_frames` (lines 28-71): open, refuse an empty video, choose the
      positions by method, decode them, and refuse an empty result. */
  method ExtractFrames(video: Video, numFrames: int, samplingMethod: string) returns (r: Result<seq<Image>>)
    ensures !video.isOpen ==> r == Err(CouldNotOpenVideo)
    ensures video.isOpen && video.frameCount == 0 ==> r == Err(VideoHasNoFrames)
    ensures samplingMethod == "uniform" ==> r == ExtractUniform(video, numFrames)
    ensures video.isOpen && video.frameCount > 0 && samplingMethod == "random" ==>
      if numFrames < 0 then r == Err(NegativeSampleCount)
      else exists idx ::
        IsRandomDraw(video.frameCount, Min(numFrames, video.frameCount), idx) && r == FramesAt(video, idx)
    ensures video.isOpen && video.frameCount > 0 && samplingMethod != "uniform" && samplingMethod != "random" ==>
      r == Err(UnknownMethod)
  {
    if !video.isOpen {
      return Err(CouldNotOpenVideo);
    }
    var total := video.frameCount;
    if total == 0 {
      return Err(VideoHasNoFrames);
    }
    var frameIndices: seq<nat>;
    if samplingMethod == "uniform" {
      if numFrames < 0 {
        return Err(NegativeSampleCount);
      }
      frameIndices := UniformIndices(total, numFrames);
    } else if samplingMethod == "random" {
      if numFrames < 0 {
        return Err(NegativeSampleCount);
      }
      frameIndices := RandomIndices(total, numFrames);
    } else {
      return Err(UnknownMethod);
    }
    var frames := DecodeFrames(video, frameIndices);
    if frames == [] {
      return Err(NoFramesExtracted);
    }
    r := Ok(frames);
  }

  /** A box as `face_recognition` reports it: (top, right, bottom, left). */
  datatype Css = Css(top: int, right: int, bottom: int, left: int)

  function Area(b: Css): int
  {
    (b.bottom - b.top) * (b.right - b.left)
  }

  /** `face_recognition.face_locations` on a frame (`full`) and on the frame
      halved by `cv2.resize` (`half`); `None` when the call raised. */
  datatype LandmarkDetector = LandmarkDetector(full: Image -> Option<seq<Css>>, half: Image -> Option<seq<Css>>)

  /** Boxes found at half resolution, scaled back to the frame: each coordinate
      doubled, in the same (top, right, bottom, left) order. */
  function Doubled(boxes: seq<Css>): (r: seq<Css>)
    ensures |r| == |boxes|
    ensures forall i :: 0 <= i < |boxes| ==>
      r[i].top == 2 * boxes[i].top && r[i].right == 2 * boxes[i].right &&
      r[i].bottom == 2 * boxes[i].bottom && r[i].left == 2 * boxes[i].left
    ensures forall i :: 0 <= i < |boxes| ==> Area(r[i]) == 4 * Area(boxes[i])
  {
    seq(|boxes|, i requires 0 <= i < |boxes| =>
      Css(2 * boxes[i].top, 2 * boxes[i].right, 2 * boxes[i].bottom, 2 * boxes[i].left))
  }

  /** The boxes `detect_faces` chooses from (lines 94-102); `None` when a detector call raised. */
  function Candidates(d: LandmarkDetector, frame: Image): Option<seq<Css>>
  {
    match d.full(frame)
    case None => None
    case Some(found) =>
      if found != [] then Some(found)
      else match d.half(frame)
        case None => None
        case Some(small) => Some(Doubled(small))
  }

  /** Full-resolution boxes are used as found; only when there are none is the
      half-resolution search consulted, and its boxes come back doubled. */
  lemma CandidatesSpec(d: LandmarkDetector, frame: Image)
    ensures d.full(frame).Some? && d.full(frame).value != [] ==> Candidates(d, frame) == d.full(frame)
    ensures d.full(frame) == Some([]) ==>
      Candidates(d, frame) == (if d.half(frame).Some? then Some(Doubled(d.half(frame).value)) else None)
    ensures d.full(frame).None? ==> Candidates(d, frame).None?
  {
  }

  function Areas(boxes: seq<Css>): (r: seq<real>)
    ensures |r| == |boxes|
    ensures forall i :: 0 <= i < |boxes| ==> r[i] == Area(boxes[i]) as real
  {
    seq(|boxes|, i requires 0 <= i < |boxes| => Area(boxes[i]) as real)
  }

  /** `max(face_locations, key=area)`: the first box of largest area. */
  function Largest(boxes: seq<Css>): (k: nat)
    requires |boxes| > 0
    ensures k < |boxes|
    ensures forall j :: 0 <= j < |boxes| ==> Area(boxes[j]) <= Area(boxes[k])
    ensures forall j :: 0 <= j < k ==> Area(boxes[j]) < Area(boxes[k])
  {
    ArgMax(Areas(boxes))
  }

  /** Lines 114-118: the box grown by a fifth of its height on every side and
      clamped to the `height` by `width` frame. */
  function Pad(b: Css, height: nat, width: nat): (p: Css)
    ensures 0 <= p.top && p.bottom <= height && 0 <= p.left && p.right <= width
  {
    var padding := FifthTowardZero(b.bottom - b.top);
    Css(Max(0, b.top - padding), Min(width, b.right + padding),
        Min(height, b.bottom + padding), Max(0, b.left - padding))
  }

  predicate InsideFrame(b: Css, height: nat, width: nat)
  {
    0 <= b.top <= b.bottom <= height && 0 <= b.left <= b.right <= width
  }

  /** For a box inside the frame, the padded box contains it, stays inside the
      frame, and grows by `(bottom - top) // 5` wherever the frame leaves room. */
  lemma PadContains(b: Css, height: nat, width: nat)
    requires InsideFrame(b, height, width)
    ensures var p := Pad(b, height, width);
      InsideFrame(p, height, width) &&
      p.top <= b.top && b.bottom <= p.bottom && p.left <= b.left && b.right <= p.right &&
      p.top == Max(0, b.top - (b.bottom - b.top) / 5) &&
      p.bottom == Min(height, b.bottom + (b.bottom - b.top) / 5) &&
      p.left == Max(0, b.left - (b.bottom - b.top) / 5) &&
      p.right == Min(width, b.right + (b.bottom - b.top) / 5)
  {
  }

  /** The body of the loop in `detect_faces` for one frame (lines 92-130): the
      padded crop of the largest box when it is at least `minFaceSize` in both
      directions; `None` when there is no box, it is too small, or a call raised. */
  function FaceOf(d: LandmarkDetector, minFaceSize: int, frame: Image): Option<Image>
  {
    match Candidates(d, frame)
    case None => None
    case Some(boxes) =>
      if boxes == [] then None
      else
        var b := boxes[Largest(boxes)];
        if b.bottom - b.top >= minFaceSize && b.right - b.left >= minFaceSize then
          var p := Pad(b, frame.height, frame.width);
          Some(Slice(frame, p.top, p.bottom, p.left, p.right))
        else None
  }

  /** A frame yields a crop exactly when some box is found and the first largest
      one is big enough; when that box lies inside the frame, the crop is the
      padded region itself and is at least `minFaceSize` in both directions. */
  lemma FaceOfSpec(d: LandmarkDetector, minFaceSize: int, frame: Image)
    ensures FaceOf(d, minFaceSize, frame).Some? <==>
      Candidates(d, frame).Some? && Candidates(d, frame).value != [] &&
      var b := Candidates(d, frame).value[Largest(Candidates(d, frame).value)];
      b.bottom - b.top >= minFaceSize && b.right - b.left >= minFaceSize
    ensures FaceOf(d, minFaceSize, frame).Some? ==>
      var b := Candidates(d, frame).value[Largest(Candidates(d, frame).value)];
      var p := Pad(b, frame.height, frame.width);
      InsideFrame(b, frame.height, frame.width) ==>
        FaceOf(d, minFaceSize, frame).value == Crop(frame, Region(p.top, p.bottom, p.left, p.right)) &&
        FaceOf(d, minFaceSize, frame).value.height >= minFaceSize &&
        FaceOf(d, minFaceSize, frame).value.width >= minFaceSize
  {
    match Candidates(d, frame)
    case None =>
    case Some(boxes) =>
      if boxes != [] {
        var b := boxes[Largest(boxes)];
        if InsideFrame(b, frame.height, frame.width) {
          PadContains(b, frame.height, frame.width);
        }
      }
  }

  function FaceStep(d: LandmarkDetector, minFaceSize: int): Image -> Option<Image>
  {
    frame => FaceOf(d, minFaceSize, frame)
  }

  /** What `detect_faces` returns: the per-frame crops, or center crops of every
      frame when no frame yields one. */
  function LocatedFaces(d: LandmarkDetector, minFaceSize: int, frames: seq<Image>): Result<seq<Image>>
  {
    var faces := FilterMap(frames, FaceStep(d, minFaceSize));
    if faces == [] then CenterCropAll(frames, FallbackSize) else Ok(faces)
  }

  /** One iteration of the loop in `detect_faces` (lines 92-130), reassigning
      the box coordinates in place as the code does. */
  method CropFace(frame: Image, d: LandmarkDetector, minFaceSize: int) returns (face: Option<Image>)
    ensures face == FaceOf(d, minFaceSize, frame)
  {
    face := None;
    var faceLocations := d.full(frame);
    if faceLocations == Some([]) {
      // try the frame at half size, and scale the boxes back up
      var small := d.half(frame);
      faceLocations := if small.Some? then Some(Doubled(small.value)) else None;
    }
    assert faceLocations == Candidates(d, frame);
    if faceLocations.Some? && faceLocations.value != [] {
      var largest := faceLocations.value[Largest(faceLocations.value)];
      var top, right, bottom, left := largest.top, largest.right, largest.bottom, largest.left;
      if bottom - top >= minFaceSize && right - left >= minFaceSize {
        var padding := FifthTowardZero(bottom - top);
        top := Max(0, top - padding);
        bottom := Min(frame.height, bottom + padding);
        left := Max(0, left - padding);
        right := Min(frame.width, right + padding);
        assert Css(top, right, bottom, left) == Pad(largest, frame.height, frame.width);
        face := Some(Slice(frame, top, bottom, left, right));
      }
    }
  }

  /** The loop of `detect_faces` over the frames (lines 89-130). */
  method CollectFaces(frames: seq<Image>, d: LandmarkDetector, minFaceSize: int) returns (faceImages: seq<Image>)
    ensures faceImages == FilterMap(frames, FaceStep(d, minFaceSize))
  {
    faceImages := [];
    for i := 0 to |frames|
      invariant faceImages == FilterMap(frames[..i], FaceStep(d, minFaceSize))
    {
      FilterMapPrefix(frames, i, FaceStep(d, minFaceSize));
      var face := CropFace(frames[i], d, minFaceSize);
      assert FaceStep(d, minFaceSize)(frames[i]) == face;
      if face.Some? {
        faceImages := faceImages + [face.value];
      }
    }
    assert frames[..|frames|] == frames;
  }

  /** `detect_faces` (lines 89-138). */
  method DetectFaces(frames: seq<Image>, d: LandmarkDetector, minFaceSize: int) returns (r: Result<seq<Image>>)
    ensures r == LocatedFaces(d, minFaceSize, frames)
  {
    var faceImages := CollectFaces(frames, d, minFaceSize);
    if faceImages == [] {
      r := CenterCropAll(frames, FallbackSize);
    } else {
      r := Ok(faceImages);
    }
  }

  /** When some frame yields a face, the result holds only per-frame crops, one
      per such frame, in frame order, never more than there are frames. */
  lemma LocatedFacesCrops(d: LandmarkDetector, minFaceSize: int, frames: seq<Image>)
    requires exists i :: 0 <= i < |frames| && FaceOf(d, minFaceSize, frames[i]).Some?
    ensures LocatedFaces(d, minFaceSize, frames).Ok?
    ensures var faces := LocatedFaces(d, minFaceSize, frames).value;
      var kept := Survivors(frames, FaceStep(d, minFaceSize));
      1 <= |faces| <= |frames| && |kept| == |faces| && StrictlyIncreasing(kept) &&
      forall k :: 0 <= k < |kept| ==> kept[k] < |frames| && FaceOf(d, minFaceSize, frames[kept[k]]) == Some(faces[k])
    ensures forall i :: 0 <= i < |frames| && FaceOf(d, minFaceSize, frames[i]).Some? ==>
      i in Survivors(frames, FaceStep(d, minFaceSize))
  {
    var step := FaceStep(d, minFaceSize);
    FilterMapEmpty(frames, step);
    FilterMapInOrder(frames, step);
  }

  /** When no frame yields a face, the result is the 224 by 224 center crop of
      every frame, or an error when some frame is empty in one direction. */
  lemma LocatedFacesFallback(d: LandmarkDetector, minFaceSize: int, frames: seq<Image>)
    requires forall i :: 0 <= i < |frames| ==> FaceOf(d, minFaceSize, frames[i]).None?
    ensures LocatedFaces(d, minFaceSize, frames) == CenterCropAll(frames, FallbackSize)
    ensures LocatedFaces(d, minFaceSize, frames).Err? <==>
      exists i :: 0 <= i < |frames| && (frames[i].height == 0 || frames[i].width == 0)
    ensures LocatedFaces(d, minFaceSize, frames).Ok? ==>
      var faces := LocatedFaces(d, minFaceSize, frames).value;
      |faces| == |frames| &&
      forall k :: 0 <= k < |faces| ==> faces[k].height == FallbackSize && faces[k].width == FallbackSize
  {
    var step := FaceStep(d, minFaceSize);
    FilterMapEmpty(frames, step);
  }

  /** A non-empty list of frames never yields an empty list of faces. */
  lemma LocatedFacesNonEmpty(d: LandmarkDetector, minFaceSize: int, frames: seq<Image>)
    requires frames != []
    ensures LocatedFaces(d, minFaceSize, frames).Ok? ==> LocatedFaces(d, minFaceSize, frames).value != []
  {
  }
}
