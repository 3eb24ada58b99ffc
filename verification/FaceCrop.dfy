/**
The face crop that follows the landmarks from frame to frame.

Landmarks and confidences are reals; the rounding to pixels is exact: `as u32` truncates and
saturates, `round` goes half away from zero.
*/
module FaceCrop {
  import opened Common

  datatype Crop = Crop(x: u32, y: u32, w: u32, h: u32)

  datatype Landmark = Landmark(x: real, y: real, z: real)

  /** What the network makes of one cropped frame; the confidence is the sigmoid of its logit, 1 if it has none. */
  datatype Inference = Failed | Output(confidence: real, raw: seq<real>)

  const F32_MAX := 340282346638528859811704183484516925440.0
  const MIN_CONFIDENCE := 0.5
  const CROP_SMOOTHING := 0.3
  const MAX_MISSES := 30
  const MESH_SIZE := 468

  // ---------------------------------------------------------------- rounding

  /** `as u32` on a float. */
  function ToU32(v: real): u32 {
    if v <= 0.0 then 0
    else if v.Floor >= TWO_TO_THE_32 then TWO_TO_THE_32 - 1
    else v.Floor
  }

  /** `f32::round`: to the nearest integer, halves away from zero. */
  function Round(v: real): int {
    if v >= 0.0 then (v + 0.5).Floor else -((0.5 - v).Floor)
  }

  lemma RoundIsNearest(v: real)
    ensures -0.5 <= Round(v) as real - v <= 0.5
    ensures Round(v) as real - v == 0.5 ==> v >= 0.0
    ensures Round(v) as real - v == -0.5 ==> v < 0.0
  {
  }

  // ---------------------------------------------------------------- crops

  predicate EndsInFrame(c: Crop, width: u32, height: u32) { c.x + c.w <= width && c.y + c.h <= height }

  /** The crop lies in the frame and is not empty. */
  predicate InFrame(c: Crop, width: u32, height: u32) {
    1 <= c.w && 1 <= c.h && EndsInFrame(c, width, height)
  }

  /** The crop sticks out by at most one pixel on each axis and is not empty. */
  predicate AlmostInFrame(c: Crop, width: u32, height: u32) {
    1 <= c.w && 1 <= c.h && c.x + c.w <= width + 1 && c.y + c.h <= height + 1
  }

  lemma Nonnegative(x: real, y: real)
    requires x >= 0.0 && y >= 0.0
    ensures x * y >= 0.0
  {
  }

  lemma Shrinks(x: real, ratio: real, v: real)
    requires x >= 0.0 && 0.0 <= ratio <= 1.0 && v == x * ratio
    ensures 0.0 <= v <= x
  {
    Nonnegative(x, ratio);
    Nonnegative(x, 1.0 - ratio);
  }

  lemma TruncatesBelow(v: real, n: u32)
    requires v <= n as real
    ensures ToU32(v) <= n
  {
  }

  lemma CenterFits(side: u32, ratio: real)
    requires 0.0 <= ratio <= 1.0
    ensures ToU32(side as real * ratio) <= side
  {
    var v := side as real * ratio;
    Shrinks(side as real, ratio, v);
    TruncatesBelow(v, side);
  }

  function CenterSize(side: u32, ratio: real): (size: u32)
    requires 0.0 <= ratio <= 1.0
    ensures size <= side
  {
    CenterFits(side, ratio);
    ToU32(side as real * ratio)
  }

  function CenterCrop(width: u32, height: u32, ratio: real): Crop
    requires 0.0 <= ratio <= 1.0
  {
    var size := CenterSize(MinNat(width, height), ratio);
    Crop((width - size) / 2, (height - size) / 2, size, size)
  }

  /** MAIN: the crop of the first frame, and of every fall-back: square, 45 percent of the shorter side, and centred on both axes. */
  lemma CenterIsCentred(width: u32, height: u32)
    ensures
      var c := CenterCrop(width, height, 0.45);
      && c.w == c.h == 9 * MinNat(width, height) / 20
      && width - 1 <= 2 * c.x + c.w <= width
      && height - 1 <= 2 * c.y + c.h <= height
  {
    var side := MinNat(width, height);
    assert side as real * 0.45 == (9 * side) as real / 20.0;
    assert ((9 * side) as real / 20.0).Floor == 9 * side / 20;
  }

  function Lerp(a: u32, b: u32, alpha: real): u32 {
    ToU32(MaxReal(Round(a as real + (b as real - a as real) * alpha) as real, 0.0))
  }

  function AtLeastOne(n: u32): u32 { if n < 1 then 1 else n }

  function SmoothCrop(from: Crop, to: Crop, alpha: real): Crop {
    Crop(Lerp(from.x, to.x, alpha), Lerp(from.y, to.y, alpha),
         AtLeastOne(Lerp(from.w, to.w, alpha)), AtLeastOne(Lerp(from.h, to.h, alpha)))
  }

  /** One axis of one smoothing step. */
  lemma SmoothAxis(x: u32, w: u32, x': u32, w': u32, side: u32)
    requires 1 <= w && 1 <= w' && x + w <= side + 1 && x' + w' <= side
    ensures
      var (i, n) := (Lerp(x, x', CROP_SMOOTHING), Lerp(w, w', CROP_SMOOTHING));
      1 <= n && i + n <= side + 1
  {
    var p := x as real + (x' as real - x as real) * CROP_SMOOTHING;
    var q := w as real + (w' as real - w as real) * CROP_SMOOTHING;
    RoundIsNearest(p);
    RoundIsNearest(q);
    assert p + q <= side as real + 0.7;
    assert Round(p) + Round(q) <= side + 1;
  }

  /** MAIN step: two independent roundings cost at most one pixel, and the cost does not accumulate. */
  lemma SmoothingKeepsAlmostInFrame(from: Crop, to: Crop, width: u32, height: u32)
    requires AlmostInFrame(from, width, height) && InFrame(to, width, height)
    ensures AlmostInFrame(SmoothCrop(from, to, CROP_SMOOTHING), width, height)
  {
    SmoothAxis(from.x, from.w, to.x, to.w, width);
    SmoothAxis(from.y, from.h, to.y, to.h, height);
  }

  /** One interpolation, in integers. */
  lemma LerpInTenths(a: u32, b: u32)
    ensures Lerp(a, b, CROP_SMOOTHING) == (7 * a + 3 * b + 5) / 10
  {
    var t := 7 * a + 3 * b + 5;
    assert (a as real + (b as real - a as real) * CROP_SMOOTHING) + 0.5 == t as real / 10.0;
    assert t == 10 * (t / 10) + t % 10;
    assert (t as real / 10.0).Floor == t / 10;
  }

  predicate RoundsOver(over: int, slack: int, tenths: int) {
    || (over == 0 && slack == 0 && tenths == 5)
    || (over == 1 && slack == 0 && tenths != 3 && tenths != 4)
    || (over == 1 && slack == 1 && tenths >= 5)
    || (over == 1 && slack == 2 && (tenths == 5 || tenths == 6))
  }

  /**
  When smoothing pushes one axis out of the frame: `from` ends at the edge or one pixel beyond it,
  `to` ends there or just before, and the distance between their starts rounds up on both sides.
  */
  predicate SticksOut(x: u32, w: u32, x': u32, w': u32, side: u32) {
    RoundsOver(x + w - side, side - (x' + w'), 3 * (x' - x) % 10)
  }

  lemma RoundingTable(over: int, slack: nat, tenths: nat)
    requires over <= 1 && tenths < 10
    ensures over + (tenths + 5) / 10 + (5 - 3 * (slack + over) - tenths) / 10 <= 0 <==> !RoundsOver(over, slack, tenths)
  {
    assert (tenths + 5) / 10 == if tenths >= 5 then 1 else 0;
    if slack + over >= 4 {
      assert (5 - 3 * (slack + over) - tenths) / 10 <= -1;
    }
  }

  lemma TensOut(k: int, r: int)
    ensures (10 * k + r) / 10 == k + r / 10
  {
  }

  /** The two rounded shares, with the whole tenths of the distance cancelled. */
  lemma TwoRoundings(x: u32, w: u32, x': u32, w': u32, side: u32)
    ensures
      var over, slack, tenths := x + w - side, side - (x' + w'), 3 * (x' - x) % 10;
      (7 * x + 3 * x' + 5) / 10 + (7 * w + 3 * w' + 5) / 10
      == side + over + (tenths + 5) / 10 + (5 - 3 * (slack + over) - tenths) / 10
  {
    var over, slack, tenths := x + w - side, side - (x' + w'), 3 * (x' - x) % 10;
    var tens := 3 * (x' - x) / 10;
    TensOut(x + tens, tenths + 5);
    TensOut(w - tens, 5 - 3 * (slack + over) - tenths);
    assert 7 * x + 3 * x' + 5 == 10 * (x + tens) + (tenths + 5);
    assert 7 * w + 3 * w' + 5 == 10 * (w - tens) + (5 - 3 * (slack + over) - tenths);
  }

  lemma SmoothAxisExactly(x: u32, w: u32, x': u32, w': u32, side: u32)
    requires 1 <= w && 1 <= w' && x + w <= side + 1 && x' + w' <= side
    ensures Lerp(x, x', CROP_SMOOTHING) + Lerp(w, w', CROP_SMOOTHING) <= side <==> !SticksOut(x, w, x', w', side)
  {
    LerpInTenths(x, x');
    LerpInTenths(w, w');
    TwoRoundings(x, w, x', w', side);
    RoundingTable(x + w - side, side - (x' + w'), 3 * (x' - x) % 10);
  }

  /** MAIN: exactly when a smoothed crop lies in the frame, for every step a run can take. */
  lemma SmoothedInFrameExactly(from: Crop, to: Crop, width: u32, height: u32)
    requires AlmostInFrame(from, width, height) && InFrame(to, width, height)
    ensures InFrame(SmoothCrop(from, to, CROP_SMOOTHING), width, height) <==>
      !SticksOut(from.x, from.w, to.x, to.w, width) && !SticksOut(from.y, from.h, to.y, to.h, height)
  {
    SmoothingKeepsAlmostInFrame(from, to, width, height);
    SmoothAxis(from.x, from.w, to.x, to.w, width);
    SmoothAxis(from.y, from.h, to.y, to.h, height);
    SmoothAxisExactly(from.x, from.w, to.x, to.w, width);
    SmoothAxisExactly(from.y, from.h, to.y, to.h, height);
  }

  /** From inside the frame: both crops end at the edge, and their starts differ by an odd multiple of five. */
  predicate OddFives(x: u32, w: u32, x': u32, w': u32, side: u32) {
    x + w == side && x' + w' == side && (x' - x) % 10 == 5
  }

  lemma TripledFive(d: int)
    ensures 3 * d % 10 == 5 <==> d % 10 == 5
  {
    assert 3 * d == 10 * (3 * (d / 10)) + 3 * (d % 10);
  }

  lemma SmoothingStaysInsideExactly(from: Crop, to: Crop, width: u32, height: u32)
    requires InFrame(from, width, height) && InFrame(to, width, height)
    ensures InFrame(SmoothCrop(from, to, CROP_SMOOTHING), width, height) <==>
      !OddFives(from.x, from.w, to.x, to.w, width) && !OddFives(from.y, from.h, to.y, to.h, height)
  {
    SmoothedInFrameExactly(from, to, width, height);
    TripledFive(to.x - from.x);
    TripledFive(to.y - from.y);
  }

  predicate StaysInside(from: Crop, to: Crop, width: u32, height: u32) {
    InFrame(from, width, height) && InFrame(to, width, height) ==>
      InFrame(SmoothCrop(from, to, CROP_SMOOTHING), width, height)
  }

  ghost predicate SmoothingAlwaysInside(width: u32, height: u32) {
    forall from, to :: StaysInside(from, to, width, height)
  }

  lemma NoFive(d: int)
    requires -5 < d < 5
    ensures d % 10 != 5
  {
  }

  lemma SmallFramesAreSafe(from: Crop, to: Crop, width: u32, height: u32)
    requires width <= 5 && height <= 5
    ensures StaysInside(from, to, width, height)
  {
    if InFrame(from, width, height) && InFrame(to, width, height) {
      SmoothingStaysInsideExactly(from, to, width, height);
      NoFive(to.x - from.x);
      NoFive(to.y - from.y);
    }
  }

  lemma LargeFramesAreNot(width: u32, height: u32)
    requires width >= 1 && height >= 1 && (width > 5 || height > 5)
    ensures
      var to := if width > 5 then Crop(5, 0, width - 5, height) else Crop(0, 5, width, height - 5);
      !StaysInside(Crop(0, 0, width, height), to, width, height)
  {
    var to := if width > 5 then Crop(5, 0, width - 5, height) else Crop(0, 5, width, height - 5);
    SmoothingStaysInsideExactly(Crop(0, 0, width, height), to, width, height);
  }

  /** By frame size: smoothing never leaves frames of up to five pixels a side, and can leave all others. */
  lemma SmoothingCanStickOut(width: u32, height: u32)
    requires width >= 1 && height >= 1
    ensures SmoothingAlwaysInside(width, height) <==> width <= 5 && height <= 5
  {
    if width <= 5 && height <= 5 {
      forall from: Crop, to: Crop ensures StaysInside(from, to, width, height) {
        SmallFramesAreSafe(from, to, width, height);
      }
    } else {
      LargeFramesAreNot(width, height);
    }
  }

  // ---------------------------------------------------------------- the crop for the next frame

  datatype Box = Box(minX: real, minY: real, maxX: real, maxY: real)

  /** The extent of the first `n` landmarks. */
  function Extent(landmarks: seq<Landmark>, n: nat): Box
    requires n <= |landmarks|
  {
    if n == 0 then Box(F32_MAX, F32_MAX, -F32_MAX, -F32_MAX)
    else
      var b, lm := Extent(landmarks, n - 1), landmarks[n - 1];
      Box(MinReal(b.minX, lm.x), MinReal(b.minY, lm.y), MaxReal(b.maxX, lm.x), MaxReal(b.maxY, lm.y))
  }

  /** Where a crop of the given size starts, centred on a face that starts at `lo` and is `len` pixels long. */
  function CropStart(lo: real, len: real, size: u32): u32 {
    ToU32(MaxReal(lo + len * 0.5 - size as real * 0.5, 0.0))
  }

  function ClippedSize(x: u32, size: u32, side: u32): u32 { MinNat(size, if x <= side then side - x else 0) }

  /** The face size and a quarter of it on each side. */
  function SizeWithMargin(faceSize: real): u32 { ToU32(faceSize + faceSize * 0.25 * 2.0) }

  /** The face in pixels. */
  datatype Face = Face(x: real, y: real, w: real, h: real)

  function InPixels(b: Box, width: u32, height: u32): Face {
    Face(b.minX * width as real, b.minY * height as real,
         (b.maxX - b.minX) * width as real, (b.maxY - b.minY) * height as real)
  }

  /** A square around the face, clipped to the frame. */
  function CropAround(face: Face, width: u32, height: u32): Crop {
    var size := SizeWithMargin(MaxReal(face.w, face.h));
    var (x, y) := (CropStart(face.x, face.w, size), CropStart(face.y, face.h, size));
    Crop(x, y, ClippedSize(x, size, width), ClippedSize(y, size, height))
  }

  /** One axis of a crop of `size` pixels for a face from `lo` to `lo + len`: centred to a pixel, but never before 0, and cut off at `side`. */
  predicate CentredOn(lo: real, len: real, size: u32, side: u32, x: u32, w: u32) {
    var start := lo + len / 2.0 - size as real / 2.0;
    && (start <= 0.0 ==> x == 0)
    && (0.0 < start < TWO_TO_THE_32 as real ==> x as real <= start < x as real + 1.0)
    && w == if x + size <= side then size else if x <= side then side - x else 0
  }

  lemma AxisIsCentred(lo: real, len: real, size: u32, side: u32)
    ensures CentredOn(lo, len, size, side, CropStart(lo, len, size), ClippedSize(CropStart(lo, len, size), size, side))
  {
  }

  /** MAIN: the crop made for a face is a square of one and a half times its larger side, centred on it and clipped. */
  lemma CropIsCentred(face: Face, width: u32, height: u32, size: u32)
    requires 0.0 <= MaxReal(face.w, face.h) * 1.5 < TWO_TO_THE_32 as real
    requires size as real <= MaxReal(face.w, face.h) * 1.5 < size as real + 1.0
    ensures
      var c := CropAround(face, width, height);
      CentredOn(face.x, face.w, size, width, c.x, c.w) && CentredOn(face.y, face.h, size, height, c.y, c.h)
  {
    var faceSize := MaxReal(face.w, face.h);
    assert SizeWithMargin(faceSize) == size by {
      assert faceSize + faceSize * 0.25 * 2.0 == faceSize * 1.5;
    }
    AxisIsCentred(face.x, face.w, size, width);
    AxisIsCentred(face.y, face.h, size, height);
  }

  function MinSize(width: u32, height: u32): u32 { ToU32(MinNat(width, height) as real * 0.2) }

  lemma MinSizeIsAFifth(width: u32, height: u32)
    ensures MinSize(width, height) == MinNat(width, height) / 5
  {
    var side := MinNat(width, height);
    assert side as real * 0.2 == side as real / 5.0;
    assert (side as real / 5.0).Floor == side / 5;
  }

  function NextCrop(landmarks: seq<Landmark>, width: u32, height: u32): Crop {
    if landmarks == [] then CenterCrop(width, height, 0.45)
    else
      var c := CropAround(InPixels(Extent(landmarks, MinNat(|landmarks|, MESH_SIZE)), width, height), width, height);
      if c.w < MinSize(width, height) || c.h < MinSize(width, height) then CenterCrop(width, height, 0.45) else c
  }

  method EstimateFaceCrop(landmarks: seq<Landmark>, width: u32, height: u32) returns (crop: Crop)
    ensures crop == NextCrop(landmarks, width, height)
  {
    if |landmarks| == 0 {
      return CenterCrop(width, height, 0.45);
    }
    var minX, minY, maxX, maxY := F32_MAX, F32_MAX, -F32_MAX, -F32_MAX;
    for i := 0 to MinNat(|landmarks|, MESH_SIZE)
      invariant Box(minX, minY, maxX, maxY) == Extent(landmarks, i)
    {
      minX := MinReal(minX, landmarks[i].x);
      minY := MinReal(minY, landmarks[i].y);
      maxX := MaxReal(maxX, landmarks[i].x);
      maxY := MaxReal(maxY, landmarks[i].y);
    }
    crop := CropAround(InPixels(Box(minX, minY, maxX, maxY), width, height), width, height);
    if crop.w < MinSize(width, height) || crop.h < MinSize(width, height) {
      return CenterCrop(width, height, 0.45);
    }
  }

  lemma {:induction false} SameExtent(a: seq<Landmark>, b: seq<Landmark>, n: nat)
    requires n <= |a| && n <= |b| && a[..n] == b[..n]
    ensures Extent(a, n) == Extent(b, n)
  {
    if n > 0 {
      assert a[..n][n - 1] == b[..n][n - 1] && a[..n - 1] == a[..n][..n - 1] && b[..n - 1] == b[..n][..n - 1];
      SameExtent(a, b, n - 1);
    }
  }

  /** The crop is estimated from the first 468 landmarks alone; the irises after them do not count. */
  lemma OnlyTheMeshCounts(mesh: seq<Landmark>, rest: seq<Landmark>, width: u32, height: u32)
    requires |mesh| == 468
    ensures NextCrop(mesh + rest, width, height) == NextCrop(mesh, width, height)
  {
    assert (mesh + rest)[..468] == mesh[..468];
    SameExtent(mesh + rest, mesh, 468);
  }

  lemma CenterInFrame(width: u32, height: u32)
    requires MinNat(width, height) >= 5
    ensures InFrame(CenterCrop(width, height, 0.45), width, height)
  {
  }

  /** MAIN: whatever the landmarks, the estimate lies in the frame, given room for a minimum crop. */
  lemma NextCropInFrame(landmarks: seq<Landmark>, width: u32, height: u32)
    requires MinNat(width, height) >= 5
    ensures InFrame(NextCrop(landmarks, width, height), width, height)
  {
    assert MinSize(width, height) >= 1;
    CenterInFrame(width, height);
  }

  ghost predicate AlwaysInFrame(width: u32, height: u32) {
    forall landmarks {:trigger NextCrop(landmarks, width, height)} ::
      |landmarks| == MESH_SIZE ==> InFrame(NextCrop(landmarks, width, height), width, height)
  }

  lemma {:induction false} FlatExtent(landmarks: seq<Landmark>, n: nat)
    requires 1 <= n <= |landmarks| && forall i :: 0 <= i < n ==> landmarks[i] == Landmark(0.0, 0.0, 0.0)
    ensures Extent(landmarks, n) == Box(0.0, 0.0, 0.0, 0.0)
  {
    if n > 1 {
      FlatExtent(landmarks, n - 1);
    } else {
      assert Extent(landmarks, 0) == Box(F32_MAX, F32_MAX, -F32_MAX, -F32_MAX);
    }
  }

  /** Five pixels is the exact threshold: on anything smaller a full mesh can yield an empty crop. */
  lemma InFrameExactlyFromFivePixels(width: u32, height: u32)
    ensures AlwaysInFrame(width, height) <==> MinNat(width, height) >= 5
  {
    if MinNat(width, height) >= 5 {
      forall landmarks: seq<Landmark> ensures InFrame(NextCrop(landmarks, width, height), width, height) {
        NextCropInFrame(landmarks, width, height);
      }
    } else {
      var flat := seq(MESH_SIZE, _ => Landmark(0.0, 0.0, 0.0));
      FlatExtent(flat, MESH_SIZE);
      assert MinSize(width, height) == 0;
      assert InPixels(Box(0.0, 0.0, 0.0, 0.0), width, height) == Face(0.0, 0.0, 0.0, 0.0);
      assert CropAround(Face(0.0, 0.0, 0.0, 0.0), width, height).w == 0;
      assert !InFrame(NextCrop(flat, width, height), width, height);
    }
  }

  /** The pixel under a landmark. */
  datatype Point = Point(x: real, y: real)

  function PointOf(lm: Landmark, width: u32, height: u32): Point {
    Point(lm.x * width as real, lm.y * height as real)
  }

  predicate PointInFrame(p: Point, width: u32, height: u32) {
    0.0 <= p.x <= width as real && 0.0 <= p.y <= height as real
  }

  predicate PointInCrop(p: Point, c: Crop) {
    c.x as real <= p.x <= c.x as real + c.w as real && c.y as real <= p.y <= c.y as real + c.h as real
  }

  predicate PointOnFace(p: Point, face: Face) {
    face.x <= p.x <= face.x + face.w && face.y <= p.y <= face.y + face.h
  }

  /** The crop made for it has at least eight pixels, and the face is not so large that its size in pixels saturates. */
  predicate Sizeable(face: Face) { 16.0 / 3.0 <= MaxReal(face.w, face.h) < TWO_TO_THE_32 as real - 1.0 }

  /** One axis: the crop spans all of the face that is in the frame. */
  lemma AxisSpansFace(lo: real, len: real, size: u32, side: u32, faceSize: real, p: real)
    requires 0.0 <= len <= faceSize && 16.0 / 3.0 <= faceSize < TWO_TO_THE_32 as real - 1.0
    requires lo <= p <= lo + len && 0.0 <= p <= side as real
    requires size == SizeWithMargin(faceSize)
    ensures
      var x := CropStart(lo, len, size);
      x as real <= p <= x as real + ClippedSize(x, size, side) as real
  {
    var start := lo + len * 0.5 - size as real * 0.5;
    assert (size as real > faceSize * 1.5 - 1.0 && size >= 8) || size == TWO_TO_THE_32 - 1;
    assert size as real >= faceSize + 2.0 || size == TWO_TO_THE_32 - 1;
    assert start <= lo;
  }

  /** MAIN: whatever of the face is in the frame is in the crop made for it, however far the face reaches beyond. */
  lemma CropContainsFace(face: Face, width: u32, height: u32, p: Point)
    requires Sizeable(face) && PointOnFace(p, face) && PointInFrame(p, width, height)
    ensures PointInCrop(p, CropAround(face, width, height))
  {
    var faceSize := MaxReal(face.w, face.h);
    AxisSpansFace(face.x, face.w, SizeWithMargin(faceSize), width, faceSize, p.x);
    AxisSpansFace(face.y, face.h, SizeWithMargin(faceSize), height, faceSize, p.y);
  }

  /** Below that, truncating start and size can cost the crop the edge of the face. */
  lemma SmallFaceIsCut()
    ensures
      var (face, p) := (Face(10.84, 10.84, 5.3, 5.3), Point(16.14, 16.14));
      && PointOnFace(p, face) && PointInFrame(p, 39, 39) && !PointInCrop(p, CropAround(face, 39, 39))
      && CropAround(face, 39, 39).w >= MinSize(39, 39) && CropAround(face, 39, 39).h >= MinSize(39, 39)
  {
    assert SizeWithMargin(5.3) == 7 && CropStart(10.84, 5.3, 7) == 9;
    assert CropAround(Face(10.84, 10.84, 5.3, 5.3), 39, 39) == Crop(9, 9, 7, 7);
  }

  /** `b` is the smallest box around the first `n` landmarks. */
  ghost predicate Tight(landmarks: seq<Landmark>, n: nat, b: Box)
    requires n <= |landmarks|
  {
    && (forall i :: 0 <= i < n ==> b.minX <= landmarks[i].x <= b.maxX && b.minY <= landmarks[i].y <= b.maxY)
    && (exists i :: 0 <= i < n && landmarks[i].x == b.minX) && (exists i :: 0 <= i < n && landmarks[i].x == b.maxX)
    && (exists i :: 0 <= i < n && landmarks[i].y == b.minY) && (exists i :: 0 <= i < n && landmarks[i].y == b.maxY)
  }

  predicate Representable(lm: Landmark) { -F32_MAX <= lm.x <= F32_MAX && -F32_MAX <= lm.y <= F32_MAX }

  lemma TightStep(landmarks: seq<Landmark>, n: nat, b: Box, c: Box)
    requires n < |landmarks| && Tight(landmarks, n, b)
    requires c.minX == MinReal(b.minX, landmarks[n].x) && c.maxX == MaxReal(b.maxX, landmarks[n].x)
    requires c.minY == MinReal(b.minY, landmarks[n].y) && c.maxY == MaxReal(b.maxY, landmarks[n].y)
    ensures Tight(landmarks, n + 1, c)
  {
    var i, j :| 0 <= i < n && 0 <= j < n && landmarks[i].x == b.minX && landmarks[j].x == b.maxX;
    var k, m :| 0 <= k < n && 0 <= m < n && landmarks[k].y == b.minY && landmarks[m].y == b.maxY;
    assert landmarks[if b.minX <= landmarks[n].x then i else n].x == c.minX;
    assert landmarks[if b.maxX >= landmarks[n].x then j else n].x == c.maxX;
    assert landmarks[if b.minY <= landmarks[n].y then k else n].y == c.minY;
    assert landmarks[if b.maxY >= landmarks[n].y then m else n].y == c.maxY;
  }

  lemma {:induction false} ExtentIsTight(landmarks: seq<Landmark>, n: nat)
    requires 1 <= n <= |landmarks| && forall i :: 0 <= i < n ==> Representable(landmarks[i])
    ensures Tight(landmarks, n, Extent(landmarks, n))
  {
    assert Representable(landmarks[n - 1]);
    if n == 1 {
      assert Extent(landmarks, 0) == Box(F32_MAX, F32_MAX, -F32_MAX, -F32_MAX);
      assert Extent(landmarks, 1) == Box(landmarks[0].x, landmarks[0].y, landmarks[0].x, landmarks[0].y);
    } else {
      ExtentIsTight(landmarks, n - 1);
      TightStep(landmarks, n - 1, Extent(landmarks, n - 1), Extent(landmarks, n));
    }
  }

  predicate InUnitSquare(lm: Landmark) { 0.0 <= lm.x <= 1.0 && 0.0 <= lm.y <= 1.0 }

  lemma UnitPointInFrame(lm: Landmark, width: u32, height: u32)
    requires InUnitSquare(lm)
    ensures PointInFrame(PointOf(lm, width, height), width, height)
  {
    Nonnegative(lm.x, width as real);
    Nonnegative(1.0 - lm.x, width as real);
    Nonnegative(lm.y, height as real);
    Nonnegative(1.0 - lm.y, height as real);
  }

  lemma ScaledBetween(lo: real, v: real, hi: real, side: real, x: real, len: real)
    requires lo <= v <= hi && side >= 0.0 && x == lo * side && len == (hi - lo) * side
    ensures x <= v * side <= x + len
  {
    Nonnegative(v - lo, side);
    Nonnegative(hi - v, side);
    var above, below := (v - lo) * side, (hi - v) * side;
    assert v * side == x + above && x + len == v * side + below;
  }

  lemma LandmarkOnFace(lm: Landmark, b: Box, width: u32, height: u32)
    requires b.minX <= lm.x <= b.maxX && b.minY <= lm.y <= b.maxY
    ensures PointOnFace(PointOf(lm, width, height), InPixels(b, width, height))
  {
    var face := InPixels(b, width, height);
    ScaledBetween(b.minX, lm.x, b.maxX, width as real, face.x, face.w);
    ScaledBetween(b.minY, lm.y, b.maxY, height as real, face.y, face.h);
  }

  /** The face that the first `n` landmarks span carries each of them. */
  lemma {:induction false} MeshOnFace(landmarks: seq<Landmark>, width: u32, height: u32, n: nat, i: nat)
    requires i < n <= |landmarks| && forall k :: 0 <= k < n ==> Representable(landmarks[k])
    ensures PointOnFace(PointOf(landmarks[i], width, height), InPixels(Extent(landmarks, n), width, height))
  {
    ExtentIsTight(landmarks, n);
    LandmarkOnFace(landmarks[i], Extent(landmarks, n), width, height);
  }

  /** In a frame of forty pixels a side a smaller face falls back to the centre. */
  lemma SmallFaceFallsBack(face: Face, width: u32, height: u32)
    requires MinNat(width, height) >= 40 && MaxReal(face.w, face.h) < 16.0 / 3.0
    ensures CropAround(face, width, height).w < MinSize(width, height)
  {
    assert SizeWithMargin(MaxReal(face.w, face.h)) < 8 <= MinSize(width, height);
  }

  /** Below 2^32 - 1 pixels, and in a frame below forty pixels not too small. */
  predicate Shown(face: Face, width: u32, height: u32) {
    MaxReal(face.w, face.h) < TWO_TO_THE_32 as real - 1.0 && (MinNat(width, height) < 40 ==> Sizeable(face))
  }

  predicate FallsBack(c: Crop, width: u32, height: u32) { c.w < MinSize(width, height) || c.h < MinSize(width, height) }

  lemma CropShowsFace(face: Face, width: u32, height: u32, p: Point)
    requires Shown(face, width, height) && PointOnFace(p, face) && PointInFrame(p, width, height)
    ensures FallsBack(CropAround(face, width, height), width, height) || PointInCrop(p, CropAround(face, width, height))
  {
    if Sizeable(face) {
      CropContainsFace(face, width, height, p);
    } else {
      SmallFaceFallsBack(face, width, height);
    }
  }

  /**
  MAIN: the next crop, unless it falls back to the centre, shows every landmark in the frame, wherever the
  others are. Only frames below forty pixels need to be told that the face is not too small.
  */
  lemma NextCropShowsEveryLandmark(landmarks: seq<Landmark>, width: u32, height: u32, i: nat)
    requires i < MinNat(|landmarks|, MESH_SIZE) && InUnitSquare(landmarks[i])
    requires forall k :: 0 <= k < MinNat(|landmarks|, MESH_SIZE) ==> Representable(landmarks[k])
    ensures
      var face := InPixels(Extent(landmarks, MinNat(|landmarks|, MESH_SIZE)), width, height);
      && Shown(face, width, height) && !FallsBack(CropAround(face, width, height), width, height)
      ==> PointInCrop(PointOf(landmarks[i], width, height), NextCrop(landmarks, width, height))
  {
    var face := InPixels(Extent(landmarks, MinNat(|landmarks|, MESH_SIZE)), width, height);
    MeshOnFace(landmarks, width, height, MinNat(|landmarks|, MESH_SIZE), i);
    UnitPointInFrame(landmarks[i], width, height);
    if Shown(face, width, height) && !FallsBack(CropAround(face, width, height), width, height) {
      CropShowsFace(face, width, height, PointOf(landmarks[i], width, height));
      assert NextCrop(landmarks, width, height) == CropAround(face, width, height);
    }
  }

  // ---------------------------------------------------------------- the detector, one frame at a time

  datatype State = State(prevCrop: Option<Crop>, prevLandmarks: Option<seq<Landmark>>, missCount: nat)

  const START := State(None, None, 0)

  type Reply = Result<Option<seq<Landmark>>, ()>

  function CurrentCrop(s: State, width: u32, height: u32): Crop {
    if s.prevCrop.Some? then s.prevCrop.value else CenterCrop(width, height, 0.45)
  }

  lemma Scaled(x: nat, y: nat, n: nat)
    requires x <= y
    ensures x * n <= y * n
  {
  }

  lemma QuotientIs(a: nat, n: nat, q: nat)
    requires n > 0 && q * n <= a < (q + 1) * n
    ensures a / n == q
  {
    var d := a / n;
    assert d * n <= a < (d + 1) * n;
    if d < q {
      Scaled(d + 1, q, n);
    } else if d > q {
      Scaled(q + 1, d, n);
    }
  }

  /** The stride `normalize_landmarks` computes for itself is always 3 here. */
  lemma StrideIsThree(length: nat)
    requires length / 3 >= MESH_SIZE
    ensures length / (length / 3) == 3
  {
    var n := length / 3;
    assert 3 * n <= length < 4 * n;
    QuotientIs(length, n, 3);
  }

  /** From the 192x192 input of the network to the whole frame. */
  function Coordinate(v: real, x: u32, w: u32, side: u32): real
    requires side > 0
  {
    (x as real + v / 192.0 * w as real) / side as real
  }

  function ToFrame(x: real, y: real, z: real, crop: Crop, width: u32, height: u32): Landmark
    requires width > 0 && height > 0
  {
    Landmark(Coordinate(x, crop.x, crop.w, width), Coordinate(y, crop.y, crop.h, height), z)
  }

  function FullLandmarks(raw: seq<real>, crop: Crop, width: u32, height: u32): (full: seq<Landmark>)
    requires width > 0 && height > 0
    ensures |full| == |raw| / 3
  {
    seq(|raw| / 3, i requires 0 <= i < |raw| / 3 => ToFrame(raw[3 * i], raw[3 * i + 1], raw[3 * i + 2], crop, width, height))
  }

  predicate IsEyeLid(i: nat) {
    || i == 130 || i == 133 || i == 144 || i == 145 || i == 153 || i == 158 || i == 159 || i == 160
    || i == 263 || i == 362 || i == 373 || i == 374 || i == 380 || i == 385 || i == 386 || i == 387
  }

  /** Upper lid, lower lid and corners, of the left eye and of the right: sixteen landmarks. */
  lemma EyeLidsAre(i: nat)
    ensures IsEyeLid(i) <==>
      i in {160, 159, 158} + {144, 145, 153} + {130, 133} + {387, 386, 385} + {373, 374, 380} + {263, 362}
  {
  }

  function Alpha(i: nat): real { if IsEyeLid(i) then 0.9 else 0.6 }

  function Blend(from: real, to: real, alpha: real): real { from + (to - from) * alpha }

  function Ema(from: Landmark, to: Landmark, alpha: real): Landmark {
    Landmark(Blend(from.x, to.x, alpha), Blend(from.y, to.y, alpha), Blend(from.z, to.z, alpha))
  }

  function Smooth(prev: Option<seq<Landmark>>, full: seq<Landmark>): (r: seq<Landmark>)
    ensures |r| == |full|
  {
    if prev.Some? && |prev.value| == |full| then
      seq(|full|, i requires 0 <= i < |full| => Ema(prev.value[i], full[i], Alpha(i)))
    else full
  }

  function Miss(s: State): State {
    if s.missCount + 1 > MAX_MISSES then START else s.(missCount := s.missCount + 1)
  }

  function Detect(s: State, width: u32, height: u32, inference: Inference): (State, Reply)
    requires width > 0 && height > 0
  {
    if inference.Failed? then (s, Err(()))
    else if inference.confidence < MIN_CONFIDENCE then (Miss(s), Ok(Miss(s).prevLandmarks))
    else if |inference.raw| / 3 < MESH_SIZE then (s.(missCount := 0), Ok(None))
    else
      var smoothed := Smooth(s.prevLandmarks, FullLandmarks(inference.raw, CurrentCrop(s, width, height), width, height));
      var next := NextCrop(smoothed, width, height);
      var crop := if s.prevCrop.Some? then SmoothCrop(s.prevCrop.value, next, CROP_SMOOTHING) else next;
      (State(Some(crop), Some(smoothed), 0), Ok(Some(smoothed)))
  }

  lemma CoordinateInPixels(v: real, x: u32, w: u32, side: u32)
    requires side > 0
    ensures Coordinate(v, x, w, side) * side as real == x as real + v * w as real / 192.0
  {
    TimesBack(x as real + v / 192.0 * w as real, side as real);
    assert v / 192.0 * w as real == v * w as real / 192.0;
  }

  lemma FirstReply(width: u32, height: u32, f: Inference)
    requires width > 0 && height > 0
    requires f.Output? && f.confidence >= MIN_CONFIDENCE && MESH_SIZE <= |f.raw| / 3
    ensures Detect(START, width, height, f).1 == Ok(Some(FullLandmarks(f.raw, CenterCrop(width, height, 0.45), width, height)))
  {
  }

  /** `lm` is where the raw point (x, y, z) lands, in pixels, when 192 units of the network's input span the crop. */
  predicate LandsIn(lm: Landmark, x: real, y: real, z: real, c: Crop, width: u32, height: u32) {
    && lm.x * width as real == c.x as real + x * c.w as real / 192.0
    && lm.y * height as real == c.y as real + y * c.h as real / 192.0
    && lm.z == z
  }

  lemma CropLands(x: real, y: real, z: real, c: Crop, width: u32, height: u32)
    requires width > 0 && height > 0
    ensures LandsIn(ToFrame(x, y, z, c, width, height), x, y, z, c, width, height)
  {
    CoordinateInPixels(x, c.x, c.w, width);
    CoordinateInPixels(y, c.y, c.h, height);
  }

  lemma CenterFields(width: u32, height: u32)
    ensures
      var side := 9 * MinNat(width, height) / 20;
      CenterCrop(width, height, 0.45) == Crop((width - side) / 2, (height - side) / 2, side, side)
  {
    CenterIsCentred(width, height);
  }

  /** MAIN: where the raw points of the very first frame land: in the centred square of 45 percent of the shorter side. */
  lemma FirstFrameLands(width: u32, height: u32, f: Inference, full: seq<Landmark>, i: nat)
    requires width > 0 && height > 0
    requires f.Output? && f.confidence >= MIN_CONFIDENCE && MESH_SIZE <= |f.raw| / 3 && i < |f.raw| / 3
    requires Detect(START, width, height, f).1 == Ok(Some(full))
    ensures
      var side := 9 * MinNat(width, height) / 20;
      var c := Crop((width - side) / 2, (height - side) / 2, side, side);
      |full| == |f.raw| / 3 && LandsIn(full[i], f.raw[3 * i], f.raw[3 * i + 1], f.raw[3 * i + 2], c, width, height)
  {
    FirstReply(width, height, f);
    var c := CenterCrop(width, height, 0.45);
    CenterFields(width, height);
    CropLands(f.raw[3 * i], f.raw[3 * i + 1], f.raw[3 * i + 2], c, width, height);
    assert full[i] == ToFrame(f.raw[3 * i], f.raw[3 * i + 1], f.raw[3 * i + 2], c, width, height);
  }

  /** Where the raw points of a later frame land, when nothing is blended in: in the crop stored before. */
  lemma LaterFrameLands(s: State, width: u32, height: u32, c: Crop, f: Inference, full: seq<Landmark>, i: nat)
    requires width > 0 && height > 0 && s.prevCrop == Some(c)
    requires f.Output? && f.confidence >= MIN_CONFIDENCE && MESH_SIZE <= |f.raw| / 3 && i < |f.raw| / 3
    requires s.prevLandmarks.Some? ==> |s.prevLandmarks.value| != |f.raw| / 3
    requires Detect(s, width, height, f).1 == Ok(Some(full))
    ensures |full| == |f.raw| / 3 && LandsIn(full[i], f.raw[3 * i], f.raw[3 * i + 1], f.raw[3 * i + 2], c, width, height)
  {
    CropLands(f.raw[3 * i], f.raw[3 * i + 1], f.raw[3 * i + 2], c, width, height);
    assert full[i] == ToFrame(f.raw[3 * i], f.raw[3 * i + 1], f.raw[3 * i + 2], c, width, height);
  }

  /** Seven tenths of the one and three of the other, to the nearest whole. */
  function Tenths(a: u32, b: u32): int { (7 * a + 3 * b + 5) / 10 }

  /** How the crop moves: the first one is the estimate; later ones go three tenths of the way to it, and never vanish. */
  lemma CropMoves(s: State, width: u32, height: u32, f: Inference, shown: seq<Landmark>, to: Crop)
    requires width > 0 && height > 0 && Detect(s, width, height, f).1 == Ok(Some(shown))
    requires f.Output? && f.confidence >= 0.5 && to == NextCrop(shown, width, height)
    ensures
      var next := Detect(s, width, height, f).0.prevCrop;
      && next.Some?
      && (s.prevCrop.None? ==> next.value == to)
      && (s.prevCrop.Some? ==>
            var c := s.prevCrop.value;
            && next.value.x == Tenths(c.x, to.x) && next.value.y == Tenths(c.y, to.y)
            && next.value.w == (if Tenths(c.w, to.w) == 0 then 1 else Tenths(c.w, to.w))
            && next.value.h == (if Tenths(c.h, to.h) == 0 then 1 else Tenths(c.h, to.h)))
  {
    if s.prevCrop.Some? {
      var c := s.prevCrop.value;
      LerpInTenths(c.x, to.x);
      LerpInTenths(c.y, to.y);
      LerpInTenths(c.w, to.w);
      LerpInTenths(c.h, to.h);
    }
  }

  ghost predicate Inv(s: State, width: u32, height: u32) {
    && s.missCount <= MAX_MISSES
    && (s.prevCrop.Some? <==> s.prevLandmarks.Some?)
    && (s.prevCrop.Some? && MinNat(width, height) >= 5 ==> AlmostInFrame(s.prevCrop.value, width, height))
  }

  lemma DetectKeepsInv(s: State, width: u32, height: u32, inference: Inference)
    requires width > 0 && height > 0 && Inv(s, width, height)
    ensures Inv(Detect(s, width, height, inference).0, width, height)
  {
    var next := Detect(s, width, height, inference).0;
    if inference.Output? && inference.confidence >= MIN_CONFIDENCE && |inference.raw| / 3 >= MESH_SIZE && MinNat(width, height) >= 5 {
      NextCropInFrame(next.prevLandmarks.value, width, height);
      if s.prevCrop.Some? {
        SmoothingKeepsAlmostInFrame(s.prevCrop.value, NextCrop(next.prevLandmarks.value, width, height), width, height);
      }
    }
  }

  /** The state after the first `n` frames, from `s` on. */
  function After(s: State, width: u32, height: u32, frames: seq<Inference>, n: nat): State
    requires width > 0 && height > 0 && n <= |frames|
  {
    if n == 0 then s else Detect(After(s, width, height, frames, n - 1), width, height, frames[n - 1]).0
  }

  function Run(width: u32, height: u32, frames: seq<Inference>, n: nat): State
    requires width > 0 && height > 0 && n <= |frames|
  {
    After(START, width, height, frames, n)
  }

  /** MAIN: over any run at a fixed frame size. */
  lemma {:induction false} RunKeepsInv(width: u32, height: u32, frames: seq<Inference>, n: nat)
    requires width > 0 && height > 0 && n <= |frames|
    ensures Inv(Run(width, height, frames, n), width, height)
    ensures MinNat(width, height) >= 5 ==> AlmostInFrame(CurrentCrop(Run(width, height, frames, n), width, height), width, height)
  {
    if n > 0 {
      RunKeepsInv(width, height, frames, n - 1);
      DetectKeepsInv(Run(width, height, frames, n - 1), width, height, frames[n - 1]);
    }
    if MinNat(width, height) >= 5 {
      CenterInFrame(width, height);
    }
  }

  // ---------------------------------------------------------------- holding the last detection

  predicate IsMiss(f: Inference) { f.Output? && f.confidence < MIN_CONFIDENCE }

  /** MAIN: after a good detection the landmarks are held for exactly 30 misses; the 31st forgets everything. */
  lemma {:induction false} MissesHoldTheLast(s: State, width: u32, height: u32, frames: seq<Inference>, n: nat)
    requires width > 0 && height > 0 && 1 <= n <= |frames| && n <= MAX_MISSES + 1
    requires s.missCount == 0 && forall i :: 0 <= i < n ==> IsMiss(frames[i])
    ensures
      var (next, reply) := Detect(After(s, width, height, frames, n - 1), width, height, frames[n - 1]);
      && next == After(s, width, height, frames, n)
      && (n <= MAX_MISSES ==> next == s.(missCount := n) && reply == Ok(s.prevLandmarks))
      && (n == MAX_MISSES + 1 ==> next == START && reply == Ok(None))
  {
    assert IsMiss(frames[n - 1]);
    if n > 1 {
      MissesHoldTheLast(s, width, height, frames, n - 1);
    } else {
      assert After(s, width, height, frames, 0) == s;
    }
  }

  /** A frame with at least half confidence and 468 landmarks or more. */
  predicate Accepts(f: Inference) { f.Output? && f.confidence >= 0.5 && |f.raw| >= 3 * 468 }

  /** MAIN: exactly what comes back, and what a frame without a usable mesh changes. */
  lemma RepliesExactly(s: State, width: u32, height: u32, f: Inference)
    requires width > 0 && height > 0
    ensures
      var (next, reply) := Detect(s, width, height, f);
      && (reply.Err? <==> f.Failed?) && (f.Failed? ==> next == s)
      && (Accepts(f) ==> reply.Ok? && reply.value.Some? && |reply.value.value| == |f.raw| / 3
                         && next.prevLandmarks == reply.value && next.prevCrop.Some? && next.missCount == 0)
      && (f.Output? && f.confidence >= 0.5 && !Accepts(f) ==> reply == Ok(None) && next == s.(missCount := 0))
      && (f.Output? && f.confidence < 0.5 ==> reply == Ok(next.prevLandmarks) && (next == START || next == s.(missCount := s.missCount + 1)))
  {
  }

  /** MAIN: what an accepted frame showed is returned for the 30 misses after it, and forgotten with the 31st. */
  lemma ShownThenHeld(s: State, width: u32, height: u32, f: Inference, frames: seq<Inference>, n: nat, shown: State)
    requires width > 0 && height > 0 && Accepts(f) && shown == Detect(s, width, height, f).0
    requires 1 <= n <= |frames| && n <= 31
    requires forall i :: 0 <= i < n ==> frames[i].Output? && frames[i].confidence < 0.5
    ensures
      var reply := Detect(After(shown, width, height, frames, n - 1), width, height, frames[n - 1]).1;
      reply == if n <= 30 then Detect(s, width, height, f).1 else Ok(None)
  {
    RepliesExactly(s, width, height, f);
    assert forall i :: 0 <= i < n ==> IsMiss(frames[i]);
    MissesHoldTheLast(shown, width, height, frames, n);
  }

  // ---------------------------------------------------------------- how fast landmarks follow

  /** What is left of an error after `k` frames: a tenth each time at the eye lids, four tenths elsewhere. */
  function Left(i: nat, k: nat, error: real): real {
    if k == 0 then error
    else if IsEyeLid(i) then Left(i, k - 1, error) * 0.1
    else Left(i, k - 1, error) * 0.4
  }

  /** After `k` frames at `target` a landmark that was at `from` is at `now`. */
  predicate Approached(from: Landmark, target: Landmark, now: Landmark, i: nat, k: nat) {
    && target.x - now.x == Left(i, k, target.x - from.x)
    && target.y - now.y == Left(i, k, target.y - from.y)
    && target.z - now.z == Left(i, k, target.z - from.z)
  }

  lemma BlendApproaches(from: Landmark, target: Landmark, now: Landmark, i: nat, k: nat)
    requires Approached(from, target, now, i, k)
    ensures Approached(from, target, Ema(now, target, Alpha(i)), i, k + 1)
  {
  }

  /** A frame that is accepted, with `count` landmarks, the i-th of them at `target`. */
  ghost predicate Shows(s: State, width: u32, height: u32, f: Inference, count: nat, i: nat, target: Landmark)
    requires width > 0 && height > 0 && i < count
  {
    && f.Output? && f.confidence >= MIN_CONFIDENCE && |f.raw| / 3 == count >= MESH_SIZE
    && FullLandmarks(f.raw, CurrentCrop(s, width, height), width, height)[i] == target
  }

  /** There are `count` stored landmarks, and the i-th has approached `target`. */
  ghost predicate StoredApproached(s: State, count: nat, i: nat, from: Landmark, target: Landmark, k: nat) {
    && s.prevLandmarks.Some? && i < |s.prevLandmarks.value| == count
    && Approached(from, target, s.prevLandmarks.value[i], i, k)
  }

  lemma OneMoreShown(stored: seq<Landmark>, full: seq<Landmark>, i: nat, from: Landmark, target: Landmark, n: nat)
    requires i < |stored| == |full| && full[i] == target && Approached(from, target, stored[i], i, n)
    ensures Approached(from, target, Smooth(Some(stored), full)[i], i, n + 1)
  {
    BlendApproaches(from, target, stored[i], i, n);
  }

  /** One accepted frame that shows it, from state `s` to state `next`. */
  ghost predicate ShownStep(s: State, width: u32, height: u32, f: Inference, next: State, count: nat, i: nat, target: Landmark)
    requires width > 0 && height > 0 && i < count
  {
    Shows(s, width, height, f, count, i, target) && next == Detect(s, width, height, f).0
  }

  lemma StepApproaches(s: State, width: u32, height: u32, f: Inference, next: State, count: nat, i: nat,
                       from: Landmark, target: Landmark, n: nat)
    requires width > 0 && height > 0 && i < count
    requires ShownStep(s, width, height, f, next, count, i, target) && StoredApproached(s, count, i, from, target, n)
    ensures StoredApproached(next, count, i, from, target, n + 1)
  {
    OneMoreShown(s.prevLandmarks.value, FullLandmarks(f.raw, CurrentCrop(s, width, height), width, height), i, from, target, n);
  }

  /** The states that the detector passes through while every frame shows it. */
  ghost predicate ShownRun(states: seq<State>, width: u32, height: u32, frames: seq<Inference>, count: nat, i: nat, target: Landmark)
    requires width > 0 && height > 0 && i < count
  {
    && |states| == |frames| + 1
    && forall k :: 0 <= k < |frames| ==> ShownStep(states[k], width, height, frames[k], states[k + 1], count, i, target)
  }

  /** MAIN: while accepted frames keep showing a landmark at one place, its stored error shrinks by a fixed factor per frame. */
  lemma {:induction false} FollowsGeometrically(states: seq<State>, width: u32, height: u32, frames: seq<Inference>, n: nat,
                                                count: nat, i: nat, from: Landmark, target: Landmark)
    requires width > 0 && height > 0 && n <= |frames| && i < count
    requires ShownRun(states, width, height, frames, count, i, target)
    requires states[0].prevLandmarks.Some? && i < |states[0].prevLandmarks.value| == count
    requires states[0].prevLandmarks.value[i] == from
    ensures StoredApproached(states[n], count, i, from, target, n)
  {
    if n > 0 {
      FollowsGeometrically(states, width, height, frames, n - 1, count, i, from, target);
      assert ShownStep(states[n - 1], width, height, frames[n - 1], states[n], count, i, target);
      StepApproaches(states[n - 1], width, height, frames[n - 1], states[n], count, i, from, target, n - 1);
    }
  }

  // ---------------------------------------------------------------- where landmarks can be

  lemma QuotientInUnit(a: real, w: real)
    requires w > 0.0
    ensures 0.0 <= a / w <= 1.0 <==> 0.0 <= a <= w
  {
    TimesBack(a, w);
    var q := a / w;
    if 0.0 <= q <= 1.0 {
      Nonnegative(q, w);
      Nonnegative(1.0 - q, w);
    } else if q < 0.0 {
      assert q * w < 0.0;
    } else {
      assert (q - 1.0) * w > 0.0;
    }
  }

  lemma CoordinateInUnit(v: real, x: u32, w: u32, side: u32)
    requires side > 0
    ensures 0.0 <= Coordinate(v, x, w, side) <= 1.0 <==>
      0.0 <= 192.0 * x as real + v * w as real <= 192.0 * side as real
  {
    var at := x as real + v / 192.0 * w as real;
    assert 192.0 * at == 192.0 * x as real + v * w as real;
    QuotientInUnit(at, side as real);
  }

  /** Exactly when a raw point lands in the frame: it need not lie in the network's input. */
  lemma LandsInFrameExactly(x: real, y: real, z: real, crop: Crop, width: u32, height: u32)
    requires width > 0 && height > 0
    ensures InUnitSquare(ToFrame(x, y, z, crop, width, height)) <==>
      && 0.0 <= 192.0 * crop.x as real + x * crop.w as real <= 192.0 * width as real
      && 0.0 <= 192.0 * crop.y as real + y * crop.h as real <= 192.0 * height as real
  {
    CoordinateInUnit(x, crop.x, crop.w, width);
    CoordinateInUnit(y, crop.y, crop.h, height);
  }

  ghost predicate MapsIntoFrame(crop: Crop, width: u32, height: u32)
    requires width > 0 && height > 0
  {
    forall x: real, y: real {:trigger ToFrame(x, y, 0.0, crop, width, height)} ::
      0.0 <= x <= 192.0 && 0.0 <= y <= 192.0 ==> InUnitSquare(ToFrame(x, y, 0.0, crop, width, height))
  }

  /** A crop maps every point of the network's input into the frame exactly when it ends in the frame itself. */
  lemma InputMapsIntoFrameExactly(crop: Crop, width: u32, height: u32)
    requires width > 0 && height > 0
    ensures MapsIntoFrame(crop, width, height) <==> EndsInFrame(crop, width, height)
  {
    if EndsInFrame(crop, width, height) {
      forall x: real, y: real | 0.0 <= x <= 192.0 && 0.0 <= y <= 192.0
        ensures InUnitSquare(ToFrame(x, y, 0.0, crop, width, height))
      {
        Nonnegative(x, crop.w as real);
        Nonnegative(192.0 - x, crop.w as real);
        Nonnegative(y, crop.h as real);
        Nonnegative(192.0 - y, crop.h as real);
        LandsInFrameExactly(x, y, 0.0, crop, width, height);
      }
    } else {
      LandsInFrameExactly(192.0, 192.0, 0.0, crop, width, height);
      assert !InUnitSquare(ToFrame(192.0, 192.0, 0.0, crop, width, height));
    }
  }

  // ---------------------------------------------------------------- when `detect` keeps its promise

  ghost predicate AllInUnit(landmarks: seq<Landmark>) {
    forall i :: 0 <= i < |landmarks| ==> InUnitSquare(landmarks[i])
  }

  /** What the documentation promises of a reply. */
  ghost predicate AsPromised(reply: Reply) { reply.Ok? && reply.value.Some? ==> AllInUnit(reply.value.value) }

  /** Every raw point lies in the network's input; depths do not count. */
  ghost predicate InputOnly(f: Inference) {
    f.Output? ==> forall k :: 0 <= k < |f.raw| && k % 3 != 2 ==> 0.0 <= f.raw[k] <= 192.0
  }

  /** Whatever the network says next, as long as it keeps to its input. */
  ghost predicate AlwaysAsPromised(s: State, width: u32, height: u32)
    requires width > 0 && height > 0
  {
    forall f :: InputOnly(f) ==> AsPromised(Detect(s, width, height, f).1)
  }

  function Corner(v: real, crop: Crop, width: u32, height: u32): Landmark
    requires width > 0 && height > 0
  {
    ToFrame(v, v, v, crop, width, height)
  }

  /** Pulled towards either corner of the crop, every stored landmark ends in the frame. */
  ghost predicate BlendsInside(stored: seq<Landmark>, crop: Crop, width: u32, height: u32)
    requires width > 0 && height > 0
  {
    forall i :: 0 <= i < |stored| ==>
      && InUnitSquare(Ema(stored[i], Corner(0.0, crop, width, height), Alpha(i)))
      && InUnitSquare(Ema(stored[i], Corner(192.0, crop, width, height), Alpha(i)))
  }

  /** The current crop ends in the frame; the stored landmarks lie in it if they may be held, and can be blended inside. */
  ghost predicate Sound(s: State, width: u32, height: u32)
    requires width > 0 && height > 0
  {
    && EndsInFrame(CurrentCrop(s, width, height), width, height)
    && (s.prevLandmarks.Some? ==>
          && (s.missCount < MAX_MISSES ==> AllInUnit(s.prevLandmarks.value))
          && (|s.prevLandmarks.value| >= MESH_SIZE ==>
                BlendsInside(s.prevLandmarks.value, CurrentCrop(s, width, height), width, height)))
  }

  lemma QuotientOrdered(a: real, b: real, w: real)
    requires a <= b && w > 0.0
    ensures a / w <= b / w
  {
  }

  lemma CoordinateBetween(v: real, x: u32, w: u32, side: u32)
    requires side > 0 && 0.0 <= v <= 192.0
    ensures Coordinate(0.0, x, w, side) <= Coordinate(v, x, w, side) <= Coordinate(192.0, x, w, side)
  {
    Nonnegative(v / 192.0, w as real);
    Nonnegative(1.0 - v / 192.0, w as real);
    var start, offset, whole := x as real, v / 192.0 * w as real, w as real;
    QuotientOrdered(start, start + offset, side as real);
    QuotientOrdered(start + offset, start + whole, side as real);
  }

  lemma BlendOrdered(from: real, to: real, to': real, alpha: real)
    requires to <= to' && 0.0 <= alpha
    ensures Blend(from, to, alpha) <= Blend(from, to', alpha)
  {
    Nonnegative(to' - to, alpha);
  }

  /** `to` lies in the rectangle that the two span. */
  predicate Between(low: Landmark, to: Landmark, high: Landmark) {
    low.x <= to.x <= high.x && low.y <= to.y <= high.y
  }

  lemma CornersAround(x: real, y: real, z: real, crop: Crop, width: u32, height: u32)
    requires width > 0 && height > 0 && 0.0 <= x <= 192.0 && 0.0 <= y <= 192.0
    ensures Between(Corner(0.0, crop, width, height), ToFrame(x, y, z, crop, width, height), Corner(192.0, crop, width, height))
  {
    CoordinateBetween(x, crop.x, crop.w, width);
    CoordinateBetween(y, crop.y, crop.h, height);
  }

  lemma EmaInside(from: Landmark, low: Landmark, to: Landmark, high: Landmark, i: nat)
    requires Between(low, to, high)
    requires InUnitSquare(Ema(from, low, Alpha(i))) && InUnitSquare(Ema(from, high, Alpha(i)))
    ensures InUnitSquare(Ema(from, to, Alpha(i)))
  {
    BlendOrdered(from.x, low.x, to.x, Alpha(i));
    BlendOrdered(from.x, to.x, high.x, Alpha(i));
    BlendOrdered(from.y, low.y, to.y, Alpha(i));
    BlendOrdered(from.y, to.y, high.y, Alpha(i));
  }

  lemma BetweenStays(p: real, q: real, alpha: real, low: real, high: real)
    requires low <= p <= high && low <= q <= high && 0.0 <= alpha <= 1.0
    ensures low <= p * (1.0 - alpha) + q * alpha <= high
  {
    Nonnegative(p - low, 1.0 - alpha);
    Nonnegative(q - low, alpha);
    Nonnegative(high - p, 1.0 - alpha);
    Nonnegative(high - q, alpha);
  }

  lemma BlendInUnit(a: real, b: real, alpha: real)
    requires 0.0 <= a <= 1.0 && 0.0 <= b <= 1.0 && 0.0 <= alpha <= 1.0
    ensures 0.0 <= Blend(a, b, alpha) <= 1.0
  {
    BetweenStays(a, b, alpha, 0.0, 1.0);
    assert Blend(a, b, alpha) == a * (1.0 - alpha) + b * alpha;
  }

  /** Landmarks in the frame stay in it when blended, given a crop that ends in it. */
  lemma UnitBlendsInside(stored: seq<Landmark>, crop: Crop, width: u32, height: u32)
    requires width > 0 && height > 0 && AllInUnit(stored) && EndsInFrame(crop, width, height)
    ensures BlendsInside(stored, crop, width, height)
  {
    var low, high := Corner(0.0, crop, width, height), Corner(192.0, crop, width, height);
    InputMapsIntoFrameExactly(crop, width, height);
    assert InUnitSquare(ToFrame(0.0, 0.0, 0.0, crop, width, height)) && InUnitSquare(ToFrame(192.0, 192.0, 0.0, crop, width, height));
    forall i | 0 <= i < |stored|
      ensures InUnitSquare(Ema(stored[i], low, Alpha(i))) && InUnitSquare(Ema(stored[i], high, Alpha(i)))
    {
      assert InUnitSquare(stored[i]);
      BlendInUnit(stored[i].x, low.x, Alpha(i));
      BlendInUnit(stored[i].y, low.y, Alpha(i));
      BlendInUnit(stored[i].x, high.x, Alpha(i));
      BlendInUnit(stored[i].y, high.y, Alpha(i));
    }
  }

  lemma FullInUnit(raw: seq<real>, crop: Crop, width: u32, height: u32)
    requires width > 0 && height > 0 && InputOnly(Output(1.0, raw)) && EndsInFrame(crop, width, height)
    ensures AllInUnit(FullLandmarks(raw, crop, width, height))
  {
    var full := FullLandmarks(raw, crop, width, height);
    InputMapsIntoFrameExactly(crop, width, height);
    forall i | 0 <= i < |full| ensures InUnitSquare(full[i]) {
      assert 0.0 <= raw[3 * i] <= 192.0 && 0.0 <= raw[3 * i + 1] <= 192.0;
      assert InUnitSquare(ToFrame(raw[3 * i], raw[3 * i + 1], 0.0, crop, width, height));
    }
  }

  lemma SmoothedInUnit(stored: seq<Landmark>, raw: seq<real>, crop: Crop, width: u32, height: u32)
    requires width > 0 && height > 0 && InputOnly(Output(1.0, raw)) && |stored| == |raw| / 3
    requires BlendsInside(stored, crop, width, height)
    ensures AllInUnit(Smooth(Some(stored), FullLandmarks(raw, crop, width, height)))
  {
    var full := FullLandmarks(raw, crop, width, height);
    var r := Smooth(Some(stored), full);
    forall i | 0 <= i < |r| ensures InUnitSquare(r[i]) {
      assert 0.0 <= raw[3 * i] <= 192.0 && 0.0 <= raw[3 * i + 1] <= 192.0;
      CornersAround(raw[3 * i], raw[3 * i + 1], raw[3 * i + 2], crop, width, height);
      EmaInside(stored[i], Corner(0.0, crop, width, height), full[i], Corner(192.0, crop, width, height), i);
    }
  }

  lemma SoundKeepsPromise(s: State, width: u32, height: u32, f: Inference)
    requires width > 0 && height > 0 && Sound(s, width, height) && InputOnly(f)
    ensures AsPromised(Detect(s, width, height, f).1)
  {
    if f.Output? && f.confidence >= MIN_CONFIDENCE && |f.raw| / 3 >= MESH_SIZE {
      var crop := CurrentCrop(s, width, height);
      if s.prevLandmarks.Some? && |s.prevLandmarks.value| == |f.raw| / 3 {
        SmoothedInUnit(s.prevLandmarks.value, f.raw, crop, width, height);
      } else {
        FullInUnit(f.raw, crop, width, height);
      }
    }
  }

  /** An accepted frame of `count` landmarks, all of whose raw values are `v`. */
  function Uniform(count: nat, v: real): (f: Inference)
    ensures 0.0 <= v <= 192.0 ==> InputOnly(f)
  {
    Output(1.0, seq(3 * count, _ => v))
  }

  lemma UniformLands(s: State, width: u32, height: u32, count: nat, v: real, i: nat)
    requires width > 0 && height > 0 && i < count && count >= MESH_SIZE
    ensures
      var crop := CurrentCrop(s, width, height);
      var reply := Detect(s, width, height, Uniform(count, v)).1;
      && reply.Ok? && reply.value.Some? && |reply.value.value| == count
      && reply.value.value[i] ==
         if s.prevLandmarks.Some? && |s.prevLandmarks.value| == count
         then Ema(s.prevLandmarks.value[i], Corner(v, crop, width, height), Alpha(i))
         else Corner(v, crop, width, height)
  {
    var crop := CurrentCrop(s, width, height);
    assert FullLandmarks(Uniform(count, v).raw, crop, width, height)[i] == Corner(v, crop, width, height);
  }

  lemma BrokenCropShows(s: State, width: u32, height: u32)
    requires width > 0 && height > 0 && !EndsInFrame(CurrentCrop(s, width, height), width, height)
    ensures !AlwaysAsPromised(s, width, height)
  {
    var count := if s.prevLandmarks.Some? && |s.prevLandmarks.value| == MESH_SIZE then MESH_SIZE + 1 else MESH_SIZE;
    UniformLands(s, width, height, count, 192.0, 0);
    var crop := CurrentCrop(s, width, height);
    LandsInFrameExactly(192.0, 192.0, 192.0, crop, width, height);
    assert !InUnitSquare(Corner(192.0, crop, width, height));
    assert !AsPromised(Detect(s, width, height, Uniform(count, 192.0)).1);
  }

  lemma StrayBlendShows(s: State, width: u32, height: u32)
    requires width > 0 && height > 0 && s.prevLandmarks.Some? && |s.prevLandmarks.value| >= MESH_SIZE
    requires !BlendsInside(s.prevLandmarks.value, CurrentCrop(s, width, height), width, height)
    ensures !AlwaysAsPromised(s, width, height)
  {
    var stored, crop := s.prevLandmarks.value, CurrentCrop(s, width, height);
    var i :| 0 <= i < |stored| &&
      !(InUnitSquare(Ema(stored[i], Corner(0.0, crop, width, height), Alpha(i))) &&
        InUnitSquare(Ema(stored[i], Corner(192.0, crop, width, height), Alpha(i))));
    UniformLands(s, width, height, |stored|, 0.0, i);
    UniformLands(s, width, height, |stored|, 192.0, i);
    assert !AsPromised(Detect(s, width, height, Uniform(|stored|, 0.0)).1) || !AsPromised(Detect(s, width, height, Uniform(|stored|, 192.0)).1);
  }

  lemma StrayLandmarkShows(s: State, width: u32, height: u32)
    requires width > 0 && height > 0 && s.prevLandmarks.Some? && s.missCount < MAX_MISSES && !AllInUnit(s.prevLandmarks.value)
    ensures !AlwaysAsPromised(s, width, height)
  {
    assert InputOnly(Output(0.0, []));
    assert !AsPromised(Detect(s, width, height, Output(0.0, [])).1);
  }

  /** MAIN: for every state, exactly when the next reply is in the frame whatever the network finds in its input. */
  lemma AsPromisedExactlyWhenSound(s: State, width: u32, height: u32)
    requires width > 0 && height > 0
    ensures AlwaysAsPromised(s, width, height) <==> Sound(s, width, height)
  {
    if Sound(s, width, height) {
      forall f | InputOnly(f) ensures AsPromised(Detect(s, width, height, f).1) {
        SoundKeepsPromise(s, width, height, f);
      }
    } else if !EndsInFrame(CurrentCrop(s, width, height), width, height) {
      BrokenCropShows(s, width, height);
    } else if s.missCount < MAX_MISSES && !AllInUnit(s.prevLandmarks.value) {
      StrayLandmarkShows(s, width, height);
    } else {
      StrayBlendShows(s, width, height);
    }
  }

  ghost predicate StoredInUnit(s: State) { s.prevLandmarks.Some? ==> AllInUnit(s.prevLandmarks.value) }

  /** With all stored landmarks in the frame the crop alone decides. */
  lemma CropDecides(s: State, width: u32, height: u32)
    requires width > 0 && height > 0 && StoredInUnit(s)
    ensures AlwaysAsPromised(s, width, height) <==> EndsInFrame(CurrentCrop(s, width, height), width, height)
  {
    AsPromisedExactlyWhenSound(s, width, height);
    if s.prevLandmarks.Some? && EndsInFrame(CurrentCrop(s, width, height), width, height) {
      UnitBlendsInside(s.prevLandmarks.value, CurrentCrop(s, width, height), width, height);
    }
  }

  lemma StoredStaysInUnit(s: State, width: u32, height: u32, f: Inference, t: State)
    requires width > 0 && height > 0 && StoredInUnit(s) && InputOnly(f) && t == Detect(s, width, height, f).0
    requires EndsInFrame(CurrentCrop(s, width, height), width, height)
    ensures StoredInUnit(t)
  {
    CropDecides(s, width, height);
    assert AsPromised(Detect(s, width, height, f).1);
  }

  ghost predicate CropEndsInFrame(width: u32, height: u32, frames: seq<Inference>, k: nat)
    requires width > 0 && height > 0 && k <= |frames|
  {
    EndsInFrame(CurrentCrop(Run(width, height, frames, k), width, height), width, height)
  }

  ghost predicate FrameAsPromised(width: u32, height: u32, frames: seq<Inference>, k: nat)
    requires width > 0 && height > 0 && k <= |frames|
  {
    AlwaysAsPromised(Run(width, height, frames, k), width, height)
  }

  lemma NothingStored(width: u32, height: u32, frames: seq<Inference>)
    requires width > 0 && height > 0
    ensures StoredInUnit(Run(width, height, frames, 0))
  {
  }

  /** As long as every crop used has ended in the frame, so do the stored landmarks. */
  lemma {:induction false} CropsKeepStoredInUnit(width: u32, height: u32, frames: seq<Inference>, n: nat)
    requires width > 0 && height > 0 && n <= |frames| && forall k :: 0 <= k < n ==> InputOnly(frames[k])
    requires forall k :: 0 <= k < n ==> CropEndsInFrame(width, height, frames, k)
    ensures StoredInUnit(Run(width, height, frames, n))
  {
    if n == 0 {
      NothingStored(width, height, frames);
    } else {
      CropsKeepStoredInUnit(width, height, frames, n - 1);
      assert CropEndsInFrame(width, height, frames, n - 1);
      StoredStaysInUnit(Run(width, height, frames, n - 1), width, height, frames[n - 1], Run(width, height, frames, n));
    }
  }

  /**
  MAIN: over any run in which the network keeps to its input: every frame up to the n-th is answered
  inside the frame, whatever it were to show, exactly when every crop used up to then ends in the frame.
  */
  lemma RunAsPromisedExactly(width: u32, height: u32, frames: seq<Inference>, n: nat)
    requires width > 0 && height > 0 && n <= |frames| && forall k :: 0 <= k < n ==> InputOnly(frames[k])
    ensures (forall k :: 0 <= k <= n ==> FrameAsPromised(width, height, frames, k)) <==>
            (forall k :: 0 <= k <= n ==> CropEndsInFrame(width, height, frames, k))
  {
    if forall k :: 0 <= k <= n ==> CropEndsInFrame(width, height, frames, k) {
      forall k | 0 <= k <= n ensures FrameAsPromised(width, height, frames, k) {
        CropsKeepStoredInUnit(width, height, frames, k);
        assert CropEndsInFrame(width, height, frames, k);
        CropDecides(Run(width, height, frames, k), width, height);
      }
    }
    if forall k :: 0 <= k <= n ==> FrameAsPromised(width, height, frames, k) {
      forall k | 0 <= k <= n ensures CropEndsInFrame(width, height, frames, k) {
        assert FrameAsPromised(width, height, frames, k);
        AsPromisedExactlyWhenSound(Run(width, height, frames, k), width, height);
      }
    }
  }

  // ---------------------------------------------------------------- how far landmarks can be carried

  /** How far the first `n` raw coordinates reach beyond the network's input, in units of it; depths do not count. */
  function Excess(raw: seq<real>, n: nat): (e: real)
    requires n <= |raw|
    ensures e >= 0.0
  {
    if n == 0 then 0.0
    else if (n - 1) % 3 == 2 then Excess(raw, n - 1)
    else MaxReal(Excess(raw, n - 1), MaxReal(-raw[n - 1] / 192.0, raw[n - 1] / 192.0 - 1.0))
  }

  /** The largest excess of the first `n` frames; 0 when the network keeps to its input. */
  function Margin(frames: seq<Inference>, n: nat): (e: real)
    requires n <= |frames|
    ensures e >= 0.0
  {
    if n == 0 then 0.0
    else if frames[n - 1].Failed? then Margin(frames, n - 1)
    else MaxReal(Margin(frames, n - 1), Excess(frames[n - 1].raw, |frames[n - 1].raw|))
  }

  lemma {:induction false} ExcessBounds(raw: seq<real>, n: nat, i: nat)
    requires i < n <= |raw| && i % 3 != 2
    ensures -Excess(raw, n) <= raw[i] / 192.0 <= 1.0 + Excess(raw, n)
  {
    if i < n - 1 {
      ExcessBounds(raw, n - 1, i);
    }
  }

  /** Within `e` of the frame, counted in units of it, but for the one pixel a crop may stick out. */
  predicate Near(v: real, side: u32, e: real) {
    -e * (side as real + 1.0) <= v * side as real <= (1.0 + e) * (side as real + 1.0)
  }

  predicate NearFrame(lm: Landmark, width: u32, height: u32, e: real) { Near(lm.x, width, e) && Near(lm.y, height, e) }

  ghost predicate AllNear(landmarks: seq<Landmark>, width: u32, height: u32, e: real) {
    forall i :: 0 <= i < |landmarks| ==> NearFrame(landmarks[i], width, height, e)
  }

  lemma OffsetWithin(u: real, w: real, e: real, offset: real)
    requires -e <= u <= 1.0 + e && w >= 0.0 && offset == u * w
    ensures -(e * w) <= offset <= w + e * w
  {
    Nonnegative(u + e, w);
    Nonnegative(1.0 + e - u, w);
  }

  lemma EdgesWithin(x: real, w: real, whole: real, e: real, offset: real)
    requires 0.0 <= x && 0.0 <= w && x + w <= whole && e >= 0.0 && -(e * w) <= offset <= w + e * w
    ensures -e * whole <= x + offset <= (1.0 + e) * whole
  {
    Nonnegative(e, whole - w);
  }

  lemma CoordinateNear(v: real, x: u32, w: u32, side: u32, e: real)
    requires e >= 0.0 && -e <= v / 192.0 <= 1.0 + e && side > 0 && x + w <= side + 1
    ensures Near(Coordinate(v, x, w, side), side, e)
  {
    var offset := v / 192.0 * w as real;
    OffsetWithin(v / 192.0, w as real, e, offset);
    EdgesWithin(x as real, w as real, side as real + 1.0, e, offset);
    TimesBack(x as real + offset, side as real);
  }

  lemma BlendNear(a: real, b: real, alpha: real, side: u32, e: real)
    requires Near(a, side, e) && Near(b, side, e) && 0.0 <= alpha <= 1.0
    ensures Near(Blend(a, b, alpha), side, e)
  {
    var w, low, high := side as real, -e * (side as real + 1.0), (1.0 + e) * (side as real + 1.0);
    var p, q := a * w, b * w;
    BetweenStays(p, q, alpha, low, high);
    assert Blend(a, b, alpha) * w == p * (1.0 - alpha) + q * alpha;
  }

  lemma PointNear(x: real, y: real, z: real, crop: Crop, width: u32, height: u32, e: real)
    requires width > 0 && height > 0 && AlmostInFrame(crop, width, height) && e >= 0.0
    requires -e <= x / 192.0 <= 1.0 + e && -e <= y / 192.0 <= 1.0 + e
    ensures NearFrame(ToFrame(x, y, z, crop, width, height), width, height, e)
  {
    CoordinateNear(x, crop.x, crop.w, width, e);
    CoordinateNear(y, crop.y, crop.h, height, e);
  }

  lemma {:induction false} FullNear(raw: seq<real>, crop: Crop, width: u32, height: u32, e: real)
    requires width > 0 && height > 0 && AlmostInFrame(crop, width, height) && e >= Excess(raw, |raw|)
    ensures AllNear(FullLandmarks(raw, crop, width, height), width, height, e)
  {
    var full := FullLandmarks(raw, crop, width, height);
    forall i | 0 <= i < |full| ensures NearFrame(full[i], width, height, e) {
      ExcessBounds(raw, |raw|, 3 * i);
      ExcessBounds(raw, |raw|, 3 * i + 1);
      PointNear(raw[3 * i], raw[3 * i + 1], raw[3 * i + 2], crop, width, height, e);
    }
  }

  lemma SmoothNear(prev: Option<seq<Landmark>>, full: seq<Landmark>, width: u32, height: u32, e: real)
    requires AllNear(full, width, height, e) && (prev.Some? ==> AllNear(prev.value, width, height, e))
    ensures AllNear(Smooth(prev, full), width, height, e)
  {
    var r := Smooth(prev, full);
    if prev.Some? && |prev.value| == |full| {
      forall i | 0 <= i < |r| ensures NearFrame(r[i], width, height, e) {
        assert NearFrame(prev.value[i], width, height, e) && NearFrame(full[i], width, height, e);
        BlendNear(prev.value[i].x, full[i].x, Alpha(i), width, e);
        BlendNear(prev.value[i].y, full[i].y, Alpha(i), height, e);
      }
    }
  }

  lemma WiderNear(v: real, side: u32, e: real, e': real)
    requires Near(v, side, e) && e <= e'
    ensures Near(v, side, e')
  {
    Nonnegative(e' - e, side as real + 1.0);
  }

  lemma WiderAllNear(landmarks: seq<Landmark>, width: u32, height: u32, e: real, e': real)
    requires AllNear(landmarks, width, height, e) && e <= e'
    ensures AllNear(landmarks, width, height, e')
  {
    forall i | 0 <= i < |landmarks| ensures NearFrame(landmarks[i], width, height, e') {
      assert NearFrame(landmarks[i], width, height, e);
      WiderNear(landmarks[i].x, width, e, e');
      WiderNear(landmarks[i].y, height, e, e');
    }
  }

  /** The landmarks kept are near the frame. */
  ghost predicate KeptNear(s: State, width: u32, height: u32, e: real) {
    s.prevLandmarks.Some? ==> AllNear(s.prevLandmarks.value, width, height, e)
  }

  lemma StepNear(s: State, width: u32, height: u32, f: Inference, e: real, e': real, t: State)
    requires width > 0 && height > 0 && AlmostInFrame(CurrentCrop(s, width, height), width, height)
    requires e' >= e && (f.Output? ==> e' >= Excess(f.raw, |f.raw|))
    requires KeptNear(s, width, height, e) && t == Detect(s, width, height, f).0
    ensures KeptNear(t, width, height, e')
  {
    if s.prevLandmarks.Some? {
      WiderAllNear(s.prevLandmarks.value, width, height, e, e');
    }
    if f.Output? {
      var crop := CurrentCrop(s, width, height);
      FullNear(f.raw, crop, width, height, e');
      SmoothNear(s.prevLandmarks, FullLandmarks(f.raw, crop, width, height), width, height, e');
    }
  }

  lemma NoneKept(width: u32, height: u32, frames: seq<Inference>)
    requires width > 0 && height > 0
    ensures KeptNear(Run(width, height, frames, 0), width, height, 0.0)
  {
  }

  /**
  MAIN: over any run, whatever the network says: the landmarks kept reach no further beyond the frame
  than its raw points ever reached beyond its input, plus the one pixel of the crop.
  */
  lemma {:induction false} RunLandmarksNear(width: u32, height: u32, frames: seq<Inference>, n: nat)
    requires MinNat(width, height) >= 5 && n <= |frames|
    ensures KeptNear(Run(width, height, frames, n), width, height, Margin(frames, n))
  {
    if n == 0 {
      NoneKept(width, height, frames);
    } else {
      RunLandmarksNear(width, height, frames, n - 1);
      RunKeepsInv(width, height, frames, n - 1);
      StepNear(Run(width, height, frames, n - 1), width, height, frames[n - 1],
               Margin(frames, n - 1), Margin(frames, n), Run(width, height, frames, n));
    }
  }

  // ---------------------------------------------------------------- the object

  class FaceMeshDetector {
    var prevCrop: Option<Crop>
    var prevLandmarks: Option<seq<Landmark>>
    var missCount: nat

    function Value(): State
      reads this
    {
      State(prevCrop, prevLandmarks, missCount)
    }

    constructor ()
      ensures Value() == START
    {
      prevCrop, prevLandmarks, missCount := None, None, 0;
    }

    /** `inference` is what the network returns for the current crop of this frame. */
    method DetectFrame(width: u32, height: u32, inference: Inference) returns (reply: Reply)
      requires width > 0 && height > 0 && Inv(Value(), width, height)
      modifies this
      ensures Inv(Value(), width, height)
      ensures (Value(), reply) == Detect(old(Value()), width, height, inference)
    {
      DetectKeepsInv(Value(), width, height, inference);
      var crop := if prevCrop.Some? then prevCrop.value else CenterCrop(width, height, 0.45);
      if inference.Failed? {
        return Err(());
      }
      if inference.confidence < MIN_CONFIDENCE {
        missCount := missCount + 1;
        if missCount > MAX_MISSES {
          prevCrop := None;
          prevLandmarks := None;
          missCount := 0;
        }
        return Ok(prevLandmarks);
      }
      missCount := 0;
      if |inference.raw| == 0 {
        return Ok(None);
      }
      if |inference.raw| / 3 < MESH_SIZE {
        return Ok(None);
      }
      var full := FullLandmarks(inference.raw, crop, width, height);
      var smoothed := full;
      if prevLandmarks.Some? && |prevLandmarks.value| == |full| {
        smoothed := seq(|full|, i requires 0 <= i < |full| && prevLandmarks.Some? && |prevLandmarks.value| == |full| reads this =>
          Ema(prevLandmarks.value[i], full[i], Alpha(i)));
      }
      assert smoothed == Smooth(prevLandmarks, full);
      prevLandmarks := Some(smoothed);
      var next := EstimateFaceCrop(smoothed, width, height);
      if prevCrop.Some? {
        prevCrop := Some(SmoothCrop(prevCrop.value, next, CROP_SMOOTHING));
      } else {
        prevCrop := Some(next);
      }
      reply := Ok(Some(smoothed));
    }
  }
}
