/** Images as numpy arrays, as far as the pipeline's integer geometry sees them:
    a height, a width, and either one plane (a rank-2 array) or one plane per
    channel (a rank-3 array). Sample values are never inspected, so a plane
    records only where its samples came from. */
module Images {
  import opened Wrappers
  import opened Seqs

  datatype Plane =
    | Samples(id: nat)                                                  // as delivered by the decoder
    | Cropped(source: Plane, top: nat, bottom: nat, left: nat, right: nat)
    | Scaled(source: Plane, height: nat, width: nat)                    // cv2.resize

  datatype Layout = Gray(plane: Plane) | Color(planes: seq<Plane>)

  datatype Image = Image(height: nat, width: nat, layout: Layout)

  /** Rows `top..bottom` and columns `left..right` of an image. */
  datatype Region = Region(top: nat, bottom: nat, left: nat, right: nat)

  predicate Within(g: Region, height: nat, width: nat)
  {
    g.top <= g.bottom <= height && g.left <= g.right <= width
  }

  /** Both images are rank 2, or both are rank 3 with the same channel count. */
  predicate SameDepth(a: Image, b: Image)
  {
    a.layout.Gray? == b.layout.Gray? &&
    (a.layout.Color? ==> |a.layout.planes| == |b.layout.planes|)
  }

  function MapPlanes(l: Layout, f: Plane -> Plane): (r: Layout)
    ensures r.Gray? == l.Gray?
    ensures r.Color? ==> |r.planes| == |l.planes|
  {
    match l
    case Gray(p) => Gray(f(p))
    case Color(ps) => Color(seq(|ps|, i requires 0 <= i < |ps| => f(ps[i])))
  }

  /** Where the bound `b` of a Python slice lands on an axis of length `n`:
      a negative bound counts from the end, and both ends are clamped. */
  function SliceBound(n: nat, b: int): (r: nat)
    ensures r <= n
    ensures 0 <= b <= n ==> r == b
    ensures b >= n ==> r == n
  {
    if b < 0 then (if b + n < 0 then 0 else b + n)
    else if b > n then n
    else b
  }

  /** The region that `img[top:bottom, left:right]` selects. */
  function SliceRegion(height: nat, width: nat, top: int, bottom: int, left: int, right: int): (g: Region)
    ensures Within(g, height, width)
    ensures 0 <= top <= bottom <= height && 0 <= left <= right <= width ==>
      g == Region(top, bottom, left, right)
  {
    var t := SliceBound(height, top);
    var l := SliceBound(width, left);
    Region(t, Max(t, SliceBound(height, bottom)), l, Max(l, SliceBound(width, right)))
  }

  function Crop(img: Image, g: Region): (r: Image)
    requires Within(g, img.height, img.width)
    ensures r.height == g.bottom - g.top && r.width == g.right - g.left
    ensures SameDepth(r, img)
  {
    Image(g.bottom - g.top, g.right - g.left,
          MapPlanes(img.layout, p => Cropped(p, g.top, g.bottom, g.left, g.right)))
  }

  /** `img[top:bottom, left:right]` with Python's slicing rules; slicing never raises. */
  function Slice(img: Image, top: int, bottom: int, left: int, right: int): (r: Image)
    ensures r.height <= img.height && r.width <= img.width
    ensures SameDepth(r, img)
  {
    Crop(img, SliceRegion(img.height, img.width, top, bottom, left, right))
  }

  /** A rank-3 image with a single channel. */
  predicate IsSingleChannel(img: Image)
  {
    img.layout.Color? && |img.layout.planes| == 1
  }

  /** The depth `cv2.resize` gives back: OpenCV's Python binding returns a
      one-channel result as a rank-2 array, and keeps every other depth. */
  predicate ResizedDepth(r: Image, img: Image)
  {
    if IsSingleChannel(img) then r.layout.Gray?
    else SameDepth(r, img)
  }

  /** `cv2.resize(img, (size, size))`. OpenCV refuses an empty source and an empty target. */
  function Resize(img: Image, size: nat): (r: Result<Image>)
    ensures r.Ok? <==> img.height > 0 && img.width > 0 && size > 0
    ensures r.Ok? ==> r.value.height == size && r.value.width == size && ResizedDepth(r.value, img)
    ensures r.Err? ==> r.error == ResizeFailed
  {
    if img.height == 0 || img.width == 0 || size == 0 then Err(ResizeFailed)
    else if IsSingleChannel(img) then Ok(Image(size, size, Gray(Scaled(img.layout.planes[0], size, size))))
    else Ok(Image(size, size, MapPlanes(img.layout, p => Scaled(p, size, size))))
  }

  /** The square `center_crop` cuts out of an `h` by `w` image: side `min(h, w)`,
      offsets `(h - side) // 2` and `(w - side) // 2`. */
  function CenterSquare(h: nat, w: nat): (g: Region)
    ensures g.bottom - g.top == Min(h, w) && g.right - g.left == Min(h, w)
    ensures Within(g, h, w)
    ensures g.top == 0 || g.left == 0
    // the margin left below (right of) the square exceeds the one above (left of) it by at most one
    ensures 0 <= (h - g.bottom) - g.top <= 1 && 0 <= (w - g.right) - g.left <= 1
  {
    var side := Min(h, w);
    Region((h - side) / 2, (h - side) / 2 + side, (w - side) / 2, (w - side) / 2 + side)
  }

  /** `center_crop(image, size)`: the centred square, resized when its side is not `size`. */
  function CenterCrop(img: Image, size: nat): (r: Result<Image>)
    ensures r.Ok? ==> r.value.height == size && r.value.width == size
    // a resize drops a single channel axis; without a resize the depth is kept
    ensures r.Ok? && Min(img.height, img.width) != size ==> ResizedDepth(r.value, img)
    ensures r.Err? <==> Min(img.height, img.width) != size && (Min(img.height, img.width) == 0 || size == 0)
    // with no resize needed, the result is the square itself
    ensures Min(img.height, img.width) == size ==>
      r == Ok(Crop(img, CenterSquare(img.height, img.width)))
    // otherwise it is the centred square, resized
    ensures Min(img.height, img.width) != size ==>
      r == Resize(Crop(img, CenterSquare(img.height, img.width)), size)
  {
    var g := CenterSquare(img.height, img.width);
    var cropped := Slice(img, g.top, g.bottom, g.left, g.right);
    if Min(img.height, img.width) != size then Resize(cropped, size) else Ok(cropped)
  }

  /** `[center_crop(frame, size) for frame in frames]`: raises at the first frame that cannot be cropped. */
  function CenterCropAll(frames: seq<Image>, size: nat): (r: Result<seq<Image>>)
    ensures r.Ok? <==> forall i :: 0 <= i < |frames| ==> CenterCrop(frames[i], size).Ok?
    ensures r.Ok? ==> |r.value| == |frames|
    ensures r.Ok? ==> forall i :: 0 <= i < |frames| ==> r.value[i] == CenterCrop(frames[i], size).value
    ensures r.Err? ==> r.error == ResizeFailed
  {
    if frames == [] then Ok([])
    else match CenterCrop(frames[0], size)
      case Err(e) => Err(e)
      case Ok(first) =>
        match CenterCropAll(frames[1..], size)
        case Err(e) => Err(e)
        case Ok(rest) => Ok([first] + rest)
  }

  /** Python's `int(n * 0.2)`: a fifth of `n`, rounded toward zero. */
  function FifthTowardZero(n: int): (r: int)
    ensures 0 <= n ==> 0 <= 5 * r <= n < 5 * r + 5
    ensures n < 0 ==> 5 * r - 5 < n <= 5 * r <= 0
  {
    if n >= 0 then n / 5 else -((-n) / 5)
  }
}
