/** `backend/video_processor.py`: frame extraction (every method other than
    'uniform' samples at random), and face cropping with a Haar cascade
    (padding of a fifth of the larger box side, center-crop fallback for the
    first twenty frames only). */
module BackendVideoProcessor {
  import opened Wrappers
  import opened Seqs
  import opened Images
  import opened Sampling

  /** The side of the center crops used when no frame yields a face. */
  const FallbackSize: nat := 224

  /** How many frames the fallback crops. */
  const FallbackFrames: nat := 20

  /** `extract_frames(video, num_frames, 'uniform')` as a function of the video. */
  function ExtractUniform(video: Video, numFrames: int): Result<seq<Image>>
  {
    if !video.isOpen then Err(CouldNotOpenVideo)
    else if video.frameCount == 0 then Err(VideoHasNoFrames)
    else if numFrames < 0 then Err(NegativeSampleCount)
    else FramesAt(video, UniformIndices(video.frameCount, numFrames))
  }

  /** Uniform extraction raises for an unopened or empty video and for a negative
      count, and otherwise exactly when no read succeeds; it returns between one
      and `numFrames` frames, each the read of a position inside the video. */
  lemma ExtractUniformSpec(video: Video, numFrames: int)
    ensures ExtractUniform(video, numFrames).Err? <==>
      !video.isOpen || video.frameCount == 0 || numFrames < 0 ||
      forall k :: 0 <= k < numFrames ==> video.read(UniformIndices(video.frameCount, numFrames)[k]).None?
    ensures ExtractUniform(video, numFrames).Ok? ==>
      var positions := UniformIndices(video.frameCount, numFrames);
      var frames := ExtractUniform(video, numFrames).value;
      1 <= |frames| <= numFrames &&
      forall k :: 0 <= k < |frames| ==>
        exists i :: 0 <= i < numFrames && positions[i] < video.frameCount && video.read(positions[i]) == Some(frames[k])
  {
    if video.isOpen && video.frameCount > 0 && numFrames >= 0 {
      var positions: seq<nat> := UniformIndices(video.frameCount, numFrames);
      UniformIndicesSpec(video.frameCount, numFrames);
      FramesAtSpec(video, positions);
      var kept := Survivors(positions, video.read);
      if FramesAt(video, positions).Ok? {
        var frames := FramesAt(video, positions).value;
        forall k | 0 <= k < |frames|
          ensures exists i :: 0 <= i < numFrames && positions[i] < video.frameCount && video.read(positions[i]) == Some(frames[k])
        {
          var i := kept[k];
          assert 0 <= i < numFrames && positions[i] < video.frameCount && video.read(positions[i]) == Some(frames[k]);
        }
      }
    }
  }

  /** `extract_frames` (lines 15-65): open, refuse an empty video, choose the
      positions ('uniform' evenly, anything else at random), decode them, and
      refuse an empty result. */
  method ExtractFrames(video: Video, numFrames: int, samplingMethod: string) returns (r: Result<seq<Image>>)
    ensures !video.isOpen ==> r == Err(CouldNotOpenVideo)
    ensures video.isOpen && video.frameCount == 0 ==> r == Err(VideoHasNoFrames)
    ensures samplingMethod == "uniform" ==> r == ExtractUniform(video, numFrames)
    ensures video.isOpen && video.frameCount > 0 && samplingMethod != "uniform" ==>
      if numFrames < 0 then r == Err(NegativeSampleCount)
      else exists idx ::
        IsRandomDraw(video.frameCount, Min(numFrames, video.frameCount), idx) && r == FramesAt(video, idx)
  {
    if !video.isOpen {
      return Err(CouldNotOpenVideo);
    }
    var total := video.frameCount;
    if total == 0 {
      return Err(VideoHasNoFrames);
    }
    if numFrames < 0 {
      // np.linspace and np.random.choice both refuse a negative count
      return Err(NegativeSampleCount);
    }
    var frameIndices: seq<nat>;
    if samplingMethod == "uniform" {
      frameIndices := UniformIndices(total, numFrames);
    } else {
      frameIndices := RandomIndices(total, numFrames);
    }
    var frames := DecodeFrames(video, frameIndices);
    if frames == [] {
      return Err(NoFramesExtracted);
    }
    r := Ok(frames);
  }

  /** A box as `detectMultiScale` reports it: corner `(x, y)`, width `w`, height `h`. */
  datatype Rect = Rect(x: int, y: int, w: int, h: int)

  function RectArea(r: Rect): int
  {
    r.w * r.h
  }

  /** `face_cascade.detectMultiScale` on the grayscale conversion of a frame;
      `None` when the conversion or the detection raised. */
  type Cascade = Image -> Option<seq<Rect>>

  function RectAreas(rects: seq<Rect>): (r: seq<real>)
    ensures |r| == |rects|
    ensures forall i :: 0 <= i < |rects| ==> r[i] == RectArea(rects[i]) as real
  {
    seq(|rects|, i requires 0 <= i < |rects| => RectArea(rects[i]) as real)
  }

  /** `max(faces, key=lambda rect: rect[2] * rect[3])`: the first box of largest area. */
  function LargestRect(rects: seq<Rect>): (k: nat)
    requires |rects| > 0
    ensures k < |rects|
    ensures forall j :: 0 <= j < |rects| ==> RectArea(rects[j]) <= RectArea(rects[k])
    ensures forall j :: 0 <= j < k ==> RectArea(rects[j]) < RectArea(rects[k])
  {
    ArgMax(RectAreas(rects))
  }

  /** Lines 106-110: the box grown by a fifth of its larger side on every side,
      its corner clamped at zero and its extent clamped to the `height` by
      `width` frame. The far edges never pass the frame, whatever the box. */
  function PadRect(r: Rect, height: nat, width: nat): (p: Rect)
    ensures 0 <= p.x && 0 <= p.y
    ensures p.x + p.w <= width && p.y + p.h <= height
  {
    var padding := FifthTowardZero(Max(r.w, r.h));
    var x := Max(0, r.x - padding);
    var y := Max(0, r.y - padding);
    Rect(x, y, Min(width - x, r.w + 2 * padding), Min(height - y, r.h + 2 * padding))
  }

  /** The box lies inside the `height` by `width` frame. */
  predicate RectInside(r: Rect, height: nat, width: nat)
  {
    0 <= r.x && 0 <= r.w && r.x + r.w <= width && 0 <= r.y && 0 <= r.h && r.y + r.h <= height
  }

  /** For a box inside the frame, the padded box stays inside the frame and
      contains the box, and it grows by the padding wherever the frame leaves room. */
  lemma PadRectContains(r: Rect, height: nat, width: nat)
    requires RectInside(r, height, width)
    ensures var p := PadRect(r, height, width);
      var padding := Max(r.w, r.h) / 5;
      RectInside(p, height, width) &&
      p.x <= r.x && r.x + r.w <= p.x + p.w && p.y <= r.y && r.y + r.h <= p.y + p.h &&
      p.x == Max(0, r.x - padding) && p.y == Max(0, r.y - padding) &&
      p.x + p.w == Min(width, p.x + r.w + 2 * padding) && p.y + p.h == Min(height, p.y + r.h + 2 * padding)
  {
  }

  /** The body of the loop in `detect_faces_opencv` for one frame (lines 88-120):
      the padded crop of the largest box; `None` when no box is found or a call raised. */
  function FaceOf(cascade: Cascade, frame: Image): Option<Image>
  {
    match cascade(frame)
    case None => None
    case Some(rects) =>
      if rects == [] then None
      else
        var p := PadRect(rects[LargestRect(rects)], frame.height, frame.width);
        Some(Slice(frame, p.y, p.y + p.h, p.x, p.x + p.w))
  }

  /** A frame yields a crop exactly when the cascade finds a box; when the
      largest box lies inside the frame, the crop is the padded region itself
      and is at least as large as the box. */
  lemma FaceOfSpec(cascade: Cascade, frame: Image)
    ensures FaceOf(cascade, frame).Some? <==> cascade(frame).Some? && cascade(frame).value != []
    ensures FaceOf(cascade, frame).Some? ==>
      var r := cascade(frame).value[LargestRect(cascade(frame).value)];
      var p := PadRect(r, frame.height, frame.width);
      RectInside(r, frame.height, frame.width) ==>
        FaceOf(cascade, frame).value == Crop(frame, Region(p.y, p.y + p.h, p.x, p.x + p.w)) &&
        FaceOf(cascade, frame).value.height >= r.h && FaceOf(cascade, frame).value.width >= r.w
  {
    if cascade(frame).Some? && cascade(frame).value != [] {
      var r := cascade(frame).value[LargestRect(cascade(frame).value)];
      if RectInside(r, frame.height, frame.width) {
        PadRectContains(r, frame.height, frame.width);
      }
    }
  }

  function FaceStep(cascade: Cascade): Image -> Option<Image>
  {
    frame => FaceOf(cascade, frame)
  }

  /** What `detect_faces_opencv` returns: the per-frame crops, or center crops of
      the first twenty frames when no frame yields one. */
  function LocatedFaces(cascade: Cascade, frames: seq<Image>): Result<seq<Image>>
  {
    var faces := FilterMap(frames, FaceStep(cascade));
    if faces == [] then CenterCropAll(Take(frames, FallbackFrames), FallbackSize) else Ok(faces)
  }

  /** One iteration of the loop in `detect_faces_opencv` (lines 88-120),
      reassigning the box coordinates in place as the code does. */
  method CropFace(frame: Image, cascade: Cascade) returns (face: Option<Image>)
    ensures face == FaceOf(cascade, frame)
  {
    face := None;
    var faces := cascade(frame);
    if faces.Some? && |faces.value| > 0 {
      var largest := faces.value[LargestRect(faces.value)];
      var x, y, w, h := largest.x, largest.y, largest.w, largest.h;
      var padding := FifthTowardZero(Max(w, h));
      x := Max(0, x - padding);
      y := Max(0, y - padding);
      w := Min(frame.width - x, w + 2 * padding);
      h := Min(frame.height - y, h + 2 * padding);
      assert Rect(x, y, w, h) == PadRect(largest, frame.height, frame.width);
      face := Some(Slice(frame, y, y + h, x, x + w));
    }
  }

  /** The loop of `detect_faces_opencv` over the frames (lines 85-120). */
  method CollectFaces(frames: seq<Image>, cascade: Cascade) returns (faceImages: seq<Image>)
    ensures faceImages == FilterMap(frames, FaceStep(cascade))
  {
    faceImages := [];
    for i := 0 to |frames|
      invariant faceImages == FilterMap(frames[..i], FaceStep(cascade))
    {
      FilterMapPrefix(frames, i, FaceStep(cascade));
      var face := CropFace(frames[i], cascade);
      assert FaceStep(cascade)(frames[i]) == face;
      if face.Some? {
        faceImages := faceImages + [face.value];
      }
    }
    assert frames[..|frames|] == frames;
  }

  /** `detect_faces_opencv` (lines 67-128). */
  method DetectFacesOpencv(frames: seq<Image>, cascade: Cascade) returns (r: Result<seq<Image>>)
    ensures r == LocatedFaces(cascade, frames)
  {
    var faceImages := CollectFaces(frames, cascade);
    if faceImages == [] {
      r := CenterCropAll(Take(frames, FallbackFrames), FallbackSize);
    } else {
      r := Ok(faceImages);
    }
  }

  /** When some frame yields a face, the result holds only per-frame crops, one
      per such frame, in frame order, never more than there are frames. */
  lemma LocatedFacesCrops(cascade: Cascade, frames: seq<Image>)
    requires exists i :: 0 <= i < |frames| && FaceOf(cascade, frames[i]).Some?
    ensures LocatedFaces(cascade, frames).Ok?
    ensures var faces := LocatedFaces(cascade, frames).value;
      var kept := Survivors(frames, FaceStep(cascade));
      1 <= |faces| <= |frames| && |kept| == |faces| && StrictlyIncreasing(kept) &&
      forall k :: 0 <= k < |kept| ==> kept[k] < |frames| && FaceOf(cascade, frames[kept[k]]) == Some(faces[k])
    ensures forall i :: 0 <= i < |frames| && FaceOf(cascade, frames[i]).Some? ==> i in Survivors(frames, FaceStep(cascade))
  {
    var step := FaceStep(cascade);
    FilterMapEmpty(frames, step);
    FilterMapInOrder(frames, step);
  }

  /** When no frame yields a face, the result is the 224 by 224 center crop of
      each of the first `min(|frames|, 20)` frames (and of no later one), or an
      error when one of those frames is empty in one direction. */
  lemma LocatedFacesFallback(cascade: Cascade, frames: seq<Image>)
    requires forall i :: 0 <= i < |frames| ==> FaceOf(cascade, frames[i]).None?
    ensures LocatedFaces(cascade, frames).Err? <==>
      exists i :: 0 <= i < Min(|frames|, FallbackFrames) && (frames[i].height == 0 || frames[i].width == 0)
    ensures LocatedFaces(cascade, frames).Ok? ==>
      var faces := LocatedFaces(cascade, frames).value;
      |faces| == Min(|frames|, FallbackFrames) &&
      forall k :: 0 <= k < |faces| ==>
        faces[k] == CenterCrop(frames[k], FallbackSize).value &&
        faces[k].height == FallbackSize && faces[k].width == FallbackSize
  {
    var step := FaceStep(cascade);
    FilterMapEmpty(frames, step);
    var head := Take(frames, FallbackFrames);
    assert forall i :: 0 <= i < |head| ==> head[i] == frames[i];
  }
}
