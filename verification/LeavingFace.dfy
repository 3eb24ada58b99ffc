/**
A run of the face detector, spelled out, in which the network keeps to its input and landmarks it
returns still lie outside the frame: first because the crop left it, then, with the crop back inside,
because a stored landmark is held.
*/
module LeavingFace {
  import opened Common
  import opened FaceCrop

  /** On a 20x20 frame, in pixels: landmark 0 at (a, a), landmark 1 at (b, b), all others in the middle. */
  function SpreadAt(i: nat, a: real, b: real): real { if i == 0 then a else if i == 1 then b else 10.0 }

  function OnDiagonal(p: real): Landmark { Landmark(p / 20.0, p / 20.0, 0.0) }

  function Spread(a: real, b: real): seq<Landmark> { seq(MESH_SIZE, i requires 0 <= i => OnDiagonal(SpreadAt(i, a, b))) }

  function Square(x: u32, w: u32): Crop { Crop(x, x, w, w) }

  /** What the network must return for the pixel `p`, seen through a crop. */
  function RawOf(p: real, x: u32, w: u32): real
    requires w > 0
  {
    (p - x as real) / w as real * 192.0
  }

  function RawSpread(a: real, b: real, x: u32, w: u32): (raw: seq<real>)
    requires w > 0
    ensures |raw| == 3 * MESH_SIZE
  {
    seq(3 * MESH_SIZE, k requires 0 <= k => if k % 3 == 2 then 0.0 else RawOf(SpreadAt(k / 3, a, b), x, w))
  }

  function SpreadFrame(a: real, b: real, x: u32, w: u32): Inference
    requires w > 0
  {
    Output(1.0, RawSpread(a, b, x, w))
  }

  lemma RawLands(p: real, x: u32, w: u32)
    requires w > 0
    ensures Coordinate(RawOf(p, x, w), x, w, 20) == p / 20.0
    ensures x as real <= p <= x as real + w as real ==> 0.0 <= RawOf(p, x, w) <= 192.0
  {
    TimesBack(p - x as real, w as real);
    QuotientInUnit(p - x as real, w as real);
    assert RawOf(p, x, w) / 192.0 == (p - x as real) / w as real;
  }

  lemma {:induction false} RawSpreadAt(a: real, b: real, x: u32, w: u32, i: nat)
    requires w > 0 && i < MESH_SIZE
    ensures
      var (raw, v) := (RawSpread(a, b, x, w), RawOf(SpreadAt(i, a, b), x, w));
      raw[3 * i] == v && raw[3 * i + 1] == v && raw[3 * i + 2] == 0.0
  {
    assert 3 * i / 3 == i && (3 * i + 1) / 3 == i && (3 * i) % 3 == 0 && (3 * i + 1) % 3 == 1 && (3 * i + 2) % 3 == 2;
  }

  lemma PointLands(p: real, x: u32, w: u32)
    requires w > 0
    ensures ToFrame(RawOf(p, x, w), RawOf(p, x, w), 0.0, Square(x, w), 20, 20) == OnDiagonal(p)
  {
    RawLands(p, x, w);
  }

  lemma {:induction false} FullOfSpread(a: real, b: real, x: u32, w: u32)
    requires w > 0
    ensures FullLandmarks(RawSpread(a, b, x, w), Square(x, w), 20, 20) == Spread(a, b)
  {
    var raw := RawSpread(a, b, x, w);
    forall i | 0 <= i < MESH_SIZE
      ensures ToFrame(raw[3 * i], raw[3 * i + 1], raw[3 * i + 2], Square(x, w), 20, 20) == OnDiagonal(SpreadAt(i, a, b))
    {
      RawSpreadAt(a, b, x, w, i);
      PointLands(SpreadAt(i, a, b), x, w);
    }
  }

  predicate Within(p: real, x: u32, w: u32) { x as real <= p <= x as real + w as real }

  lemma {:induction false} SpreadIsInputOnly(a: real, b: real, x: u32, w: u32)
    requires w > 0 && Within(a, x, w) && Within(b, x, w) && Within(10.0, x, w)
    ensures InputOnly(SpreadFrame(a, b, x, w))
  {
    var raw := RawSpread(a, b, x, w);
    forall k | 0 <= k < |raw| ensures 0.0 <= raw[k] <= 192.0 {
      RawLands(SpreadAt(k / 3, a, b), x, w);
    }
  }

  lemma {:induction false} SmoothOfSpread(a: real, b: real, a': real, b': real)
    ensures Smooth(Some(Spread(a, b)), Spread(a', b')) == Spread(Blend(a, a', 0.6), Blend(b, b', 0.6))
  {
    var r, expected := Smooth(Some(Spread(a, b)), Spread(a', b')), Spread(Blend(a, a', 0.6), Blend(b, b', 0.6));
    forall i | 0 <= i < MESH_SIZE ensures r[i] == expected[i] {
      assert r[i] == Ema(Spread(a, b)[i], Spread(a', b')[i], Alpha(i));
    }
  }

  lemma {:induction false} ExtentOfSpread(a: real, b: real)
    requires 0.0 <= a <= 10.0 <= b <= 40.0
    ensures Extent(Spread(a, b), MESH_SIZE) == Box(a / 20.0, a / 20.0, b / 20.0, b / 20.0)
  {
    var s := Spread(a, b);
    forall i | 0 <= i < MESH_SIZE ensures Representable(s[i]) && a / 20.0 <= s[i].x <= b / 20.0 && s[i].y == s[i].x {
    }
    ExtentIsTight(s, MESH_SIZE);
    assert s[0] == OnDiagonal(a) && s[1] == OnDiagonal(b);
  }

  /** The next crop, on both axes, when it is not too small. */
  lemma NextOfSpread(a: real, b: real, x: u32, w: u32)
    requires 0.0 <= a <= 10.0 <= b <= 40.0 && w >= 4
    requires CropAround(Face(a, a, b - a, b - a), 20, 20) == Square(x, w)
    ensures NextCrop(Spread(a, b), 20, 20) == Square(x, w)
  {
    ExtentOfSpread(a, b);
    assert InPixels(Box(a / 20.0, a / 20.0, b / 20.0, b / 20.0), 20, 20) == Face(a, a, b - a, b - a);
    assert MinSize(20, 20) == 4;
  }

  /** The detector between two frames of the run. */
  function Held(a: real, b: real, x: u32, w: u32): State { State(Some(Square(x, w)), Some(Spread(a, b)), 0) }

  lemma FirstFrame(a: real, b: real, x: u32, w: u32)
    requires 0.0 <= a <= 10.0 <= b <= 40.0 && w >= 4
    requires CropAround(Face(a, a, b - a, b - a), 20, 20) == Square(x, w)
    ensures Detect(START, 20, 20, SpreadFrame(a, b, 5, 9)).0 == Held(a, b, x, w)
  {
    assert CurrentCrop(START, 20, 20) == Square(5, 9);
    FullOfSpread(a, b, 5, 9);
    NextOfSpread(a, b, x, w);
  }

  /**
  One frame: what it shows, where the smoothed landmarks end up and how far apart, the crop made for
  them, and the crop stored.
  */
  datatype Move = Move(seenA: real, seenB: real, a: real, b: real, size: real, toX: u32, toW: u32, x: u32, w: u32)

  function HeldAfter(m: Move): State { Held(m.a, m.b, m.x, m.w) }

  predicate Sensible(m: Move) { m.toW >= 4 && m.w >= 4 && 0.0 <= m.a <= 10.0 <= m.b <= 40.0 && m.size == m.b - m.a }

  predicate Follows(p: Move, m: Move) {
    && Sensible(p) && Sensible(m)
    && m.a == Blend(p.a, m.seenA, 0.6) && m.b == Blend(p.b, m.seenB, 0.6)
    && CropAround(Face(m.a, m.a, m.size, m.size), 20, 20) == Square(m.toX, m.toW)
    && m.x == (7 * p.x + 3 * m.toX + 5) / 10 && m.w == (7 * p.w + 3 * m.toW + 5) / 10
  }

  lemma SmoothSquare(x: u32, w: u32, x': u32, w': u32)
    requires w >= 1 && w' >= 1
    ensures SmoothCrop(Square(x, w), Square(x', w'), CROP_SMOOTHING) ==
            Square((7 * x + 3 * x' + 5) / 10, (7 * w + 3 * w' + 5) / 10)
  {
    LerpInTenths(x, x');
    LerpInTenths(w, w');
  }

  lemma Accepted(s: State, f: Inference, smoothed: seq<Landmark>, to: Crop, t: State)
    requires s.prevCrop.Some? && f.Output? && f.confidence >= MIN_CONFIDENCE && |f.raw| / 3 >= MESH_SIZE
    requires smoothed == Smooth(s.prevLandmarks, FullLandmarks(f.raw, s.prevCrop.value, 20, 20))
    requires to == NextCrop(smoothed, 20, 20)
    requires t == State(Some(SmoothCrop(s.prevCrop.value, to, CROP_SMOOTHING)), Some(smoothed), 0)
    ensures Detect(s, 20, 20, f) == (t, Ok(Some(smoothed)))
  {
  }

  lemma {:induction false} MoveWorks(p: Move, m: Move)
    requires Follows(p, m)
    ensures Smooth(Some(Spread(p.a, p.b)), Spread(m.seenA, m.seenB)) == Spread(m.a, m.b)
    ensures NextCrop(Spread(m.a, m.b), 20, 20) == Square(m.toX, m.toW)
    ensures SmoothCrop(Square(p.x, p.w), Square(m.toX, m.toW), CROP_SMOOTHING) == Square(m.x, m.w)
  {
    SmoothOfSpread(p.a, p.b, m.seenA, m.seenB);
    NextOfSpread(m.a, m.b, m.toX, m.toW);
    SmoothSquare(p.x, p.w, m.toX, m.toW);
  }

  lemma {:induction false} LaterFrame(p: Move, m: Move, f: Inference, shown: seq<Landmark>)
    requires p.w > 0 && f == SpreadFrame(m.seenA, m.seenB, p.x, p.w) && shown == Spread(m.a, m.b)
    requires Smooth(Some(Spread(p.a, p.b)), Spread(m.seenA, m.seenB)) == shown
    requires NextCrop(shown, 20, 20) == Square(m.toX, m.toW)
    requires SmoothCrop(Square(p.x, p.w), Square(m.toX, m.toW), CROP_SMOOTHING) == Square(m.x, m.w)
    ensures Detect(HeldAfter(p), 20, 20, f) == (HeldAfter(m), Ok(Some(shown)))
  {
    FullOfSpread(m.seenA, m.seenB, p.x, p.w);
    Accepted(HeldAfter(p), f, shown, Square(m.toX, m.toW), HeldAfter(m));
  }

  /**
  Landmark 1 follows the right edge of the crop; move 5 makes the crop end one pixel beyond the frame,
  move 6 takes the landmark there, and move 7 brings the crop back.
  */
  function MoveAt(n: nat): Move {
    if n == 0 then Move(5.0, 14.0, 5.0, 14.0, 9.0, 3, 13, 3, 13)
    else if n == 1 then Move(5.0, 47.0 / 3.0, 5.0, 15.0, 10.0, 2, 15, 3, 14)
    else if n == 2 then Move(5.0, 50.0 / 3.0, 5.0, 16.0, 11.0, 2, 16, 3, 15)
    else if n == 3 then Move(5.0, 53.0 / 3.0, 5.0, 17.0, 12.0, 2, 18, 3, 16)
    else if n == 4 then Move(5.0, 56.0 / 3.0, 5.0, 18.0, 13.0, 2, 18, 3, 17)
    else if n == 5 then Move(40.0 / 3.0, 59.0 / 3.0, 10.0, 19.0, 9.0, 8, 12, 5, 16)
    else if n == 6 then Move(10.0, 21.0, 10.0, 20.2, 10.2, 7, 13, 6, 15)
    else Move(6.0, 21.0, 7.6, 20.68, 13.08, 4, 16, 5, 15)
  }

  lemma EarlyFollows(n: nat)
    requires 1 <= n <= 4
    ensures Follows(MoveAt(n - 1), MoveAt(n))
  {
  }

  lemma EachFollows(n: nat)
    requires 1 <= n <= 7
    ensures Follows(MoveAt(n - 1), MoveAt(n))
  {
    if n <= 4 {
      EarlyFollows(n);
    }
  }

  /** The last of the frames is a miss. */
  function LeavingFrame(n: nat): Inference {
    if n == 0 then SpreadFrame(5.0, 14.0, 5, 9)
    else if n <= 7 then SpreadFrame(MoveAt(n).seenA, MoveAt(n).seenB, MoveAt(n - 1).x, MoveAt(n - 1).w)
    else Output(0.0, [])
  }

  function Leaving(): (frames: seq<Inference>)
    ensures |frames| == 9
  {
    seq(9, n requires 0 <= n => LeavingFrame(n))
  }

  lemma LeavingStaysInInput(n: nat)
    requires n < |Leaving()|
    ensures InputOnly(Leaving()[n])
  {
    if n == 0 {
      SpreadIsInputOnly(5.0, 14.0, 5, 9);
    } else if n <= 7 {
      SpreadIsInputOnly(MoveAt(n).seenA, MoveAt(n).seenB, MoveAt(n - 1).x, MoveAt(n - 1).w);
    }
  }

  ghost predicate Reaches(n: nat, s: State)
    requires n <= |Leaving()|
  {
    Run(20, 20, Leaving(), n) == s
  }

  lemma ReachesNext(n: nat, before: State, f: Inference, s: State)
    requires n < |Leaving()| && Reaches(n, before) && f == Leaving()[n] && Detect(before, 20, 20, f).0 == s
    ensures Reaches(n + 1, s)
  {
  }

  lemma FirstMove(n: nat)
    requires n == 0
    ensures Reaches(n + 1, HeldAfter(MoveAt(n)))
  {
    assert CropAround(Face(5.0, 5.0, 9.0, 9.0), 20, 20) == Square(3, 13);
    FirstFrame(5.0, 14.0, 3, 13);
    ReachesNext(n, START, SpreadFrame(5.0, 14.0, 5, 9), Held(5.0, 14.0, 3, 13));
  }

  /** Move `n` in the run, once the move before it has been reached. */
  lemma {:induction false} NextMove(n: nat, p: Move, m: Move, shown: seq<Landmark>)
    requires 1 <= n <= 7 && p == MoveAt(n - 1) && m == MoveAt(n) && Reaches(n, HeldAfter(p)) && shown == Spread(m.a, m.b)
    ensures Reaches(n + 1, HeldAfter(m)) && Detect(HeldAfter(p), 20, 20, Leaving()[n]).1 == Ok(Some(shown))
  {
    EachFollows(n);
    MoveWorks(p, m);
    LaterFrame(p, m, Leaving()[n], shown);
    ReachesNext(n, HeldAfter(p), Leaving()[n], HeldAfter(m));
  }

  lemma {:induction false} ReachesMove(n: nat)
    requires n <= 7
    ensures Reaches(n + 1, HeldAfter(MoveAt(n)))
  {
    if n == 0 {
      FirstMove(n);
    } else {
      ReachesMove(n - 1);
      NextMove(n, MoveAt(n - 1), MoveAt(n), Spread(MoveAt(n).a, MoveAt(n).b));
    }
  }

  lemma HeldReply(m: Move, shown: seq<Landmark>)
    requires shown == Spread(m.a, m.b)
    ensures Detect(HeldAfter(m), 20, 20, Output(0.0, [])).1 == Ok(Some(shown))
  {
  }

  /** The reply to frame `n` of the run shows landmark 1 at the pixel (p, p). */
  ghost predicate SecondLandmarkAt(n: nat, p: real)
    requires n < |Leaving()|
  {
    var reply := Detect(Run(20, 20, Leaving(), n), 20, 20, Leaving()[n]).1;
    reply.Ok? && reply.value.Some? && |reply.value.value| == MESH_SIZE && reply.value.value[1] == OnDiagonal(p)
  }

  lemma ReplyShows(n: nat, s: State, f: Inference, shown: seq<Landmark>, p: real)
    requires n < |Leaving()| && Reaches(n, s) && f == Leaving()[n] && Detect(s, 20, 20, f).1 == Ok(Some(shown))
    requires |shown| == MESH_SIZE && shown[1] == OnDiagonal(p)
    ensures SecondLandmarkAt(n, p)
  {
  }

  lemma MoveReply(n: nat)
    requires 1 <= n <= 7
    ensures SecondLandmarkAt(n, MoveAt(n).b)
  {
    var shown := Spread(MoveAt(n).a, MoveAt(n).b);
    ReachesMove(n - 1);
    NextMove(n, MoveAt(n - 1), MoveAt(n), shown);
    ReplyShows(n, HeldAfter(MoveAt(n - 1)), Leaving()[n], shown, MoveAt(n).b);
  }

  lemma LastReply(n: nat, m: Move)
    requires n == 8 && m == MoveAt(n - 1)
    ensures SecondLandmarkAt(n, m.b)
  {
    var shown := Spread(m.a, m.b);
    ReachesMove(n - 1);
    HeldReply(m, shown);
    ReplyShows(n, HeldAfter(m), Output(0.0, []), shown, m.b);
  }

  lemma CropAfter(n: nat)
    requires n <= 7
    ensures CurrentCrop(Run(20, 20, Leaving(), n + 1), 20, 20) == Square(MoveAt(n).x, MoveAt(n).w)
  {
    ReachesMove(n);
  }

  /** A run from the start, the network keeping to its input, in which the crop leaves the frame and then a landmark does. */
  lemma LandmarkLeavesTheFrame() returns (n: nat)
    ensures n < |Leaving()| && forall k :: 0 <= k <= n ==> InputOnly(Leaving()[k])
    ensures CurrentCrop(Run(20, 20, Leaving(), n), 20, 20) == Crop(5, 5, 16, 16)
    ensures SecondLandmarkAt(n, 20.2) && OnDiagonal(20.2) == Landmark(1.01, 1.01, 0.0)
  {
    n := 6;
    forall k | 0 <= k <= n ensures InputOnly(Leaving()[k]) {
      LeavingStaysInInput(k);
    }
    CropAfter(n - 1);
    MoveReply(n);
  }

  /** Two frames later the crop lies in the frame again, and a miss still returns the stored landmark, further out. */
  lemma LandmarkStaysOutside() returns (n: nat)
    ensures n < |Leaving()| && forall k :: 0 <= k <= n ==> InputOnly(Leaving()[k])
    ensures IsMiss(Leaving()[n]) && InFrame(CurrentCrop(Run(20, 20, Leaving(), n), 20, 20), 20, 20)
    ensures SecondLandmarkAt(n, 20.68) && OnDiagonal(20.68) == Landmark(1.034, 1.034, 0.0)
  {
    n := 8;
    forall k | 0 <= k <= n ensures InputOnly(Leaving()[k]) {
      LeavingStaysInInput(k);
    }
    CropAfter(n - 1);
    LastReply(n, MoveAt(n - 1));
  }
}
