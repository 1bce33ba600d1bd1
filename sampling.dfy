/** Frame index selection and the decode loop that both `extract_frames`
    functions share. */
module Sampling {
  import opened Wrappers
  import opened Seqs
  import opened Images

  /** A capture as `extract_frames` sees it: whether `cv2.VideoCapture` opened it,
      its `CAP_PROP_FRAME_COUNT`, and the seek, read and BGR-to-RGB conversion of
      one frame position (`None` when `cap.read()` reports failure). */
  datatype Video = Video(isOpen: bool, frameCount: nat, read: nat -> Option<Image>)

  /** `np.linspace(0, total - 1, num, dtype=int)` in exact arithmetic: position `i`
      is the floor of `i * (total - 1) / (num - 1)`, and the last one is set to
      `total - 1`; a single sample is position 0. */
  function UniformIndices(total: nat, num: nat): seq<nat>
    requires total >= 1
  {
    if num == 1 then [0]
    else
      seq(num, i requires 0 <= i < num =>
        if i == num - 1 then total - 1 else ScaledPosition(i, total - 1, num - 1))
  }

  /** Position `i` of `parts` steps spread over `span`, rounded down. */
  function ScaledPosition(i: nat, span: nat, parts: nat): nat
    requires parts > 0
  {
    MulMonotone(0, i, span);
    i * span / parts
  }

  lemma MulMonotone(a: int, b: int, c: nat)
    requires a <= b
    ensures a * c <= b * c
  {
    assert b * c - a * c == (b - a) * c;
  }

  lemma DivMonotone(a: nat, b: nat, d: nat)
    requires 0 < d && a <= b
    ensures a / d <= b / d
  {
    var qa, qb := a / d, b / d;
    assert a == d * qa + a % d;
    assert b == d * qb + b % d;
    if qa > qb {
      MulMonotone(qb + 1, qa, d);
    }
  }

  lemma MulDivCancel(i: nat, d: nat)
    requires 0 < d
    ensures i * d / d == i
  {
    var q := i * d / d;
    assert i * d == d * q + (i * d) % d;
    if q < i { MulMonotone(q + 1, i, d); }
    if q > i { MulMonotone(i + 1, q, d); }
  }

  /** Scaling positions `0..d` by `t / d` and rounding down keeps their order and stays within `t`. */
  lemma ScaledPositionMonotone(i: nat, j: nat, t: nat, d: nat)
    requires 0 < d && i <= j <= d
    ensures i * t / d <= j * t / d <= t
  {
    MulMonotone(i, j, t);
    MulMonotone(j, d, t);
    DivMonotone(i * t, j * t, d);
    DivMonotone(j * t, d * t, d);
    assert d * t == t * d;
    MulDivCancel(t, d);
  }

  /** The uniform positions: `num` of them, in order, inside the video, starting
      at its first frame and (for two or more) ending at its last; when the video
      has exactly `num` frames, every frame once. */
  lemma UniformIndicesSpec(total: nat, num: nat)
    requires total >= 1
    ensures |UniformIndices(total, num)| == num
    ensures forall i :: 0 <= i < num ==> UniformIndices(total, num)[i] < total
    ensures NonDecreasing(UniformIndices(total, num))
    ensures num >= 1 ==> UniformIndices(total, num)[0] == 0
    ensures num >= 2 ==> UniformIndices(total, num)[num - 1] == total - 1
    ensures total == num ==> forall i :: 0 <= i < num ==> UniformIndices(total, num)[i] == i
  {
    var r := UniformIndices(total, num);
    if num >= 2 {
      var d := num - 1;
      forall i, j | 0 <= i <= j < num ensures r[i] <= r[j] < total {
        ScaledPositionMonotone(i, j, total - 1, d);
        ScaledPositionMonotone(j, d, total - 1, d);
      }
      if total == num {
        forall i | 0 <= i < num ensures r[i] == i {
          if i < d { MulDivCancel(i, d); }
        }
      }
    }
  }

  /** What `np.random.choice(total, size=k, replace=False)` followed by `.sort()`
      can return: `k` distinct positions of the video, in ascending order. */
  predicate IsRandomDraw(total: nat, k: nat, idx: seq<nat>)
  {
    |idx| == k && StrictlyIncreasing(idx) && forall i :: 0 <= i < |idx| ==> idx[i] < total
  }

  /** A sequence without repetitions has as many distinct elements as entries. */
  lemma {:induction false} DistinctCardinality(s: seq<nat>)
    requires Distinct(s)
    ensures |Elements(s)| == |s|
  {
    if s != [] {
      var init, last := s[..|s| - 1], s[|s| - 1];
      assert s == init + [last];
      assert Distinct(init);
      DistinctCardinality(init);
      assert Elements(s) == Elements(init) + {last};
      assert last !in Elements(init);
    }
  }

  /** The random branch: `min(num, total)` distinct positions drawn without
      replacement, then sorted. The draw is left unconstrained beyond what
      numpy guarantees. */
  method RandomIndices(total: nat, num: nat) returns (idx: seq<nat>)
    ensures IsRandomDraw(total, Min(num, total), idx)
  {
    var k := Min(num, total);
    ghost var evenly := seq(k, i => i);
    assert |evenly| == k && Distinct(evenly) && forall i :: 0 <= i < k ==> evenly[i] < total;
    var drawn: seq<nat> :| |drawn| == k && Distinct(drawn) && forall i :: 0 <= i < k ==> drawn[i] < total;
    // frame_indices.sort(): list the drawn positions in ascending order
    idx := [];
    var v := 0;
    while v < total
      invariant 0 <= v <= total
      invariant StrictlyIncreasing(idx)
      invariant forall i :: 0 <= i < |idx| ==> idx[i] < v
      invariant forall x :: x in idx <==> x in drawn && x < v
    {
      if v in drawn {
        idx := idx + [v];
      }
      v := v + 1;
    }
    assert Elements(idx) == Elements(drawn);
    DistinctCardinality(idx);
    DistinctCardinality(drawn);
  }

  /** The frames the decode loop keeps: one per position whose read succeeds, in position order. */
  function Decoded(video: Video, indices: seq<nat>): seq<Image>
  {
    FilterMap(indices, video.read)
  }

  /** The decode loop of both `extract_frames`: seek and read each position,
      keep the frame when the read succeeds, skip the position otherwise. */
  method DecodeFrames(video: Video, indices: seq<nat>) returns (frames: seq<Image>)
    ensures frames == Decoded(video, indices)
  {
    frames := [];
    for k := 0 to |indices|
      invariant frames == FilterMap(indices[..k], video.read)
    {
      FilterMapPrefix(indices, k, video.read);
      match video.read(indices[k]) {
        case Some(frame) => frames := frames + [frame];
        case None =>
      }
    }
    assert indices[..|indices|] == indices;
  }

  /** The outcome of the decode loop: raises when nothing was read. */
  function FramesAt(video: Video, indices: seq<nat>): Result<seq<Image>>
  {
    var frames := Decoded(video, indices);
    if frames == [] then Err(NoFramesExtracted) else Ok(frames)
  }

  /** The frames returned are the successful reads, kept in position order and never
      more than there were positions; the loop raises exactly when no read succeeds. */
  lemma FramesAtSpec(video: Video, indices: seq<nat>)
    ensures FramesAt(video, indices).Err? <==> forall k :: 0 <= k < |indices| ==> video.read(indices[k]).None?
    ensures FramesAt(video, indices).Ok? ==> 1 <= |FramesAt(video, indices).value| <= |indices|
    ensures FramesAt(video, indices).Ok? ==>
      var kept := Survivors(indices, video.read);
      |kept| == |FramesAt(video, indices).value| && StrictlyIncreasing(kept) &&
      forall k :: 0 <= k < |kept| ==>
        kept[k] < |indices| && video.read(indices[kept[k]]) == Some(FramesAt(video, indices).value[k])
    ensures forall i :: 0 <= i < |indices| && video.read(indices[i]).Some? ==> i in Survivors(indices, video.read)
  {
    FilterMapEmpty(indices, video.read);
    FilterMapInOrder(indices, video.read);
  }
}
