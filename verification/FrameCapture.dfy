/**
Double-buffered GPU readback: `capture_frame_async` copies the rendered texture into one
staging buffer, asks for it to be mapped, and reads back the frame copied by an earlier call
from the other buffer.  Map completion is a callback of the device that sets a flag shared by
both buffers; the environment decides when callbacks run.

`Capture` is one call as a function of the state and of the callbacks that happen to run in it.
Misuse of a buffer (reading one that is not mapped, copying into or mapping one that is) is a
`Fault`.  The class is proved against `Capture`, and the protocol properties are proved of runs.
*/
module FrameCapture {
  import opened Common

  // ---------------------------------------------------------------- row layout

  /** Bytes per row, as the device wants it: `(width * 4 + 255) & !255`. */
  function AlignedBpr(width: nat): nat { (width * 4 + 255) / 256 * 256 }

  /** `rows` lines of `stride` bytes: the product, built row by row so that proofs stay linear. */
  function Bytes(rows: nat, stride: nat): nat {
    if rows == 0 then 0 else stride + Bytes(rows - 1, stride)
  }

  /** Sizes for which the 32-bit arithmetic of `scene.rs` does not overflow. */
  predicate Fits(width: nat, height: nat) {
    width * 4 + 255 < TWO_TO_THE_32 && Bytes(height, AlignedBpr(width)) < TWO_TO_THE_32
  }

  /** The stride is the least multiple of 256 that holds a row. */
  lemma AlignedBprIsLeast(width: nat, n: nat)
    ensures AlignedBpr(width) % 256 == 0 && 4 * width <= AlignedBpr(width) < 4 * width + 256
    ensures n % 256 == 0 && n >= 4 * width ==> n >= AlignedBpr(width)
  {
    var q := (width * 4 + 255) / 256;
    assert 256 * q <= width * 4 + 255 < 256 * q + 256;
    if n % 256 == 0 {
      assert n == 256 * (n / 256);
    }
  }

  /** On 32-bit words, masking the low byte is what `AlignedBpr` computes. */
  lemma MaskIsRounding(x: bv32)
    ensures x & !255 == x - x % 256
  {
  }

  lemma {:induction false} BytesIsProduct(rows: nat, stride: nat)
    ensures Bytes(rows, stride) == rows * stride
  {
    if rows > 0 {
      BytesIsProduct(rows - 1, stride);
      assert rows * stride == stride + (rows - 1) * stride;
    }
  }

  lemma {:induction false} RowsFit(r: nat, rows: nat, stride: nat)
    requires r < rows
    ensures Bytes(r, stride) + stride <= Bytes(rows, stride)
    ensures Bytes(rows, stride) == Bytes(r, stride) + Bytes(rows - r, stride)
  {
    if r > 0 {
      RowsFit(r - 1, rows - 1, stride);
    }
  }

  /** The device's copy: `rows` lines of `pixels`, one per stride; the padding keeps its old bytes. */
  function CopyRows(before: seq<byte>, pixels: seq<byte>, line: nat, stride: nat, rows: nat): (data: seq<byte>)
    requires line <= stride && |before| == Bytes(rows, stride) && |pixels| == Bytes(rows, line)
    ensures |data| == |before|
    decreases rows
  {
    if rows == 0 then []
    else pixels[..line] + before[line..stride] + CopyRows(before[stride..], pixels[line..], line, stride, rows - 1)
  }

  /** The rows without their padding. */
  function Unpad(data: seq<byte>, line: nat, stride: nat, rows: nat): (pixels: seq<byte>)
    requires line <= stride && |data| == Bytes(rows, stride)
    ensures |pixels| == Bytes(rows, line)
    decreases rows
  {
    if rows == 0 then [] else data[..line] + Unpad(data[stride..], line, stride, rows - 1)
  }

  /** MAIN: reading back undoes copying, whatever the padding held. */
  lemma {:induction false} UnpadUndoesCopy(before: seq<byte>, pixels: seq<byte>, line: nat, stride: nat, rows: nat)
    requires line <= stride && |before| == Bytes(rows, stride) && |pixels| == Bytes(rows, line)
    ensures Unpad(CopyRows(before, pixels, line, stride, rows), line, stride, rows) == pixels
    decreases rows
  {
    if rows > 0 {
      var data := CopyRows(before, pixels, line, stride, rows);
      var rest := CopyRows(before[stride..], pixels[line..], line, stride, rows - 1);
      assert data[..line] == pixels[..line] && data[stride..] == rest;
      UnpadUndoesCopy(before[stride..], pixels[line..], line, stride, rows - 1);
    }
  }

  lemma FirstRow(data: seq<byte>, line: nat, stride: nat, rows: nat, tail: seq<byte>)
    requires line <= stride && |data| == Bytes(rows, stride) && rows > 0
    requires tail == Unpad(data[stride..], line, stride, rows - 1)
    ensures Unpad(data, line, stride, rows) == data[..line] + tail
  {
  }

  lemma LaterByte(data: seq<byte>, line: nat, stride: nat, rows: nat, tail: seq<byte>, i: nat, o: nat)
    requires line <= stride && |data| == Bytes(rows, stride) && rows > 0
    requires tail == Unpad(data[stride..], line, stride, rows - 1) && i < |tail| && stride + o < |data|
    requires tail[i] == data[stride..][o]
    ensures line + i < |Unpad(data, line, stride, rows)| && Unpad(data, line, stride, rows)[line + i] == data[stride + o]
  {
    FirstRow(data, line, stride, rows, tail);
    assert (data[..line] + tail)[line + i] == tail[i];
  }

  /** Where a byte of the unpadded frame comes from. */
  lemma {:induction false} UnpadAt(data: seq<byte>, line: nat, stride: nat, rows: nat, r: nat, c: nat)
    requires line <= stride && |data| == Bytes(rows, stride) && r < rows && c < line
    ensures Bytes(r, line) + c < Bytes(rows, line) && Bytes(r, stride) + c < |data|
    ensures Unpad(data, line, stride, rows)[Bytes(r, line) + c] == data[Bytes(r, stride) + c]
    decreases rows
  {
    RowsFit(r, rows, line);
    RowsFit(r, rows, stride);
    var tail := Unpad(data[stride..], line, stride, rows - 1);
    if r == 0 {
      FirstRow(data, line, stride, rows, tail);
    } else {
      UnpadAt(data[stride..], line, stride, rows - 1, r - 1, c);
      LaterByte(data, line, stride, rows, tail, Bytes(r - 1, line) + c, Bytes(r - 1, stride) + c);
    }
  }

  /** After `row` turns of the readback loop. */
  ghost predicate ReadSoFar(data: seq<byte>, line: nat, stride: nat, row: nat, height: nat, pixels: seq<byte>)
    requires line <= stride && row <= height && |data| == Bytes(height, stride)
  {
    && Bytes(row, stride) <= |data|
    && |data[Bytes(row, stride)..]| == Bytes(height - row, stride)
    && Unpad(data, line, stride, height) == pixels + Unpad(data[Bytes(row, stride)..], line, stride, height - row)
  }

  lemma StepBytes(row: nat, stride: nat)
    ensures Bytes(row + 1, stride) == Bytes(row, stride) + stride
  {
  }

  lemma ReadOneMore(data: seq<byte>, line: nat, stride: nat, row: nat, height: nat, pixels: seq<byte>, at: nat)
    requires line <= stride && row < height && |data| == Bytes(height, stride) && at == Bytes(row, stride)
    requires ReadSoFar(data, line, stride, row, height, pixels)
    ensures at + line <= |data|
    ensures ReadSoFar(data, line, stride, row + 1, height, pixels + data[at..at + line])
  {
    RowsFit(row, height, stride);
    StepBytes(row, stride);
    var rest := data[at..];
    assert rest[stride..] == data[at + stride..] && rest[..line] == data[at..at + line];
    var later := Unpad(rest[stride..], line, stride, height - row - 1);
    assert pixels + (rest[..line] + later) == (pixels + rest[..line]) + later;
  }

  function RowOffset(row: nat, stride: nat): (offset: nat)
    ensures offset == Bytes(row, stride)
  {
    BytesIsProduct(row, stride);
    row * stride
  }

  lemma ReadAll(data: seq<byte>, line: nat, stride: nat, height: nat, pixels: seq<byte>)
    requires line <= stride && |data| == Bytes(height, stride) && ReadSoFar(data, line, stride, height, height, pixels)
    ensures pixels == Unpad(data, line, stride, height)
  {
    assert pixels + [] == pixels;
  }

  /** The row loop of the readback. */
  method ReadRows(data: seq<byte>, alignedBpr: nat, width: nat, height: nat) returns (pixels: seq<byte>)
    requires 4 * width <= alignedBpr && |data| == Bytes(height, alignedBpr)
    ensures pixels == Unpad(data, 4 * width, alignedBpr, height)
  {
    pixels := [];
    for row := 0 to height
      invariant ReadSoFar(data, 4 * width, alignedBpr, row, height, pixels)
    {
      var start := RowOffset(row, alignedBpr);
      var end := start + width * 4;
      ReadOneMore(data, 4 * width, alignedBpr, row, height, pixels, start);
      pixels := pixels + data[start..end];
    }
    ReadAll(data, 4 * width, alignedBpr, height, pixels);
  }

  // ---------------------------------------------------------------- the alpha map

  function AlphaMap(bgra: seq<byte>, count: nat): (alpha: seq<byte>)
    requires |bgra| >= 4 * count
    ensures |alpha| == count
    ensures forall i :: 0 <= i < count ==> alpha[i] == bgra[i * 4 + 3]
  {
    seq(count, i requires 0 <= i < count => bgra[i * 4 + 3])
  }

  method ExtractAlpha(bgra: seq<byte>, w: nat, h: nat) returns (alphaMap: seq<byte>)
    requires |bgra| == 4 * (w * h)
    ensures alphaMap == AlphaMap(bgra, w * h)
  {
    var pixelCount := w * h;
    alphaMap := [];
    for i := 0 to pixelCount
      invariant |alphaMap| == i
      invariant forall k :: 0 <= k < i ==> alphaMap[k] == bgra[k * 4 + 3]
    {
      alphaMap := alphaMap + [bgra[i * 4 + 3]];
    }
  }

  /** Whether the cursor at (lx, ly) is over a rendered pixel. */
  function HitTest(alphaMap: seq<byte>, w: nat, h: nat, lx: nat, ly: nat): bool {
    if lx < w && ly < h then
      var idx := ly * w + lx;
      (if idx < |alphaMap| then alphaMap[idx] else 0) > 0
    else false
  }

  lemma PixelBytes(n: nat, w: nat)
    ensures Bytes(n, 4 * w) == 4 * (w * n) == 4 * (n * w)
  {
    BytesIsProduct(n, 4 * w);
  }

  lemma AlphaOffset(ly: nat, h: nat, w: nat, lx: nat)
    requires lx < w && ly < h
    ensures (ly * w + lx) * 4 + 3 == Bytes(ly, 4 * w) + (4 * lx + 3)
    ensures ly * w + lx < w * h
  {
    PixelBytes(ly, w);
    RowsFit(ly, h, w);
    BytesIsProduct(ly, w);
    BytesIsProduct(h, w);
  }

  /** In range, the hit test reads the alpha byte of that pixel of the frame. */
  lemma HitTestReadsTheFrame(bgra: seq<byte>, w: nat, h: nat, lx: nat, ly: nat)
    requires |bgra| == Bytes(h, 4 * w) && lx < w && ly < h
    ensures |bgra| == 4 * (w * h) && Bytes(ly, 4 * w) + (4 * lx + 3) < |bgra|
    ensures HitTest(AlphaMap(bgra, w * h), w, h, lx, ly) <==> bgra[Bytes(ly, 4 * w) + (4 * lx + 3)] > 0
  {
    PixelBytes(h, w);
    AlphaOffset(ly, h, w, lx);
    var count, idx := w * h, ly * w + lx;
    assert AlphaMap(bgra, count)[idx] == bgra[idx * 4 + 3];
  }

  /** MAIN: the hit test looks at the alpha byte of row `ly`, column `lx` of the staging buffer, and at nothing else. */
  lemma HitTestReadsTheAlphaByte(data: seq<byte>, bgra: seq<byte>, stride: nat, w: nat, h: nat, lx: nat, ly: nat)
    requires 4 * w <= stride && |data| == Bytes(h, stride) && bgra == Unpad(data, 4 * w, stride, h)
    ensures |bgra| == 4 * (w * h)
    ensures lx < w && ly < h ==>
      var at := Bytes(ly, stride) + (4 * lx + 3);
      at < |data| && (HitTest(AlphaMap(bgra, w * h), w, h, lx, ly) <==> data[at] > 0)
    ensures !(lx < w && ly < h) ==> !HitTest(AlphaMap(bgra, w * h), w, h, lx, ly)
  {
    PixelBytes(h, w);
    if lx < w && ly < h {
      UnpadAt(data, 4 * w, stride, h, ly, 4 * lx + 3);
      HitTestReadsTheFrame(bgra, w, h, lx, ly);
    }
  }

  /** Outside the window, or beyond the end of an alpha map of another size, the cursor is over nothing. */
  lemma HitTestMissesOutside(alphaMap: seq<byte>, w: nat, h: nat, lx: nat, ly: nat)
    requires lx >= w || ly >= h || ly * w + lx >= |alphaMap|
    ensures !HitTest(alphaMap, w, h, lx, ly)
  {
  }

  // ---------------------------------------------------------------- the protocol

  datatype MapState = Unmapped | MapRequested | Mapped

  datatype Staging = Staging(state: MapState, data: seq<byte>)

  /**
  A map callback: of one of the two current buffers, its map done or failed, or of a buffer that has been
  dropped since.  The callback sets the flag without looking at the result.
  */
  datatype Callback = OfBuffer(b: nat) | MapFailed(b: nat) | OfDropped

  /**
  The frame-capture fields of the scene.  `dropped` counts callbacks still to come from buffers that
  a size change has replaced: they set the same flag.
  */
  datatype Cap = Cap(
    texture: Option<seq<byte>>,
    buffers: seq<Option<Staging>>,
    idx: nat,
    mapReady: bool,
    pending: bool,
    width: nat,
    height: nat,
    dropped: nat)

  const EMPTY := Cap(None, [None, None], 0, false, false, 0, 0, 0)

  predicate IsFrame(pixels: seq<byte>, width: nat, height: nat) { |pixels| == Bytes(height, 4 * width) }

  predicate IsStaging(b: Option<Staging>, width: nat, height: nat) {
    b.Some? && |b.value.data| == Bytes(height, AlignedBpr(width))
  }

  /** Texture and buffers exist together and have the current size. */
  predicate Shaped(s: Cap) {
    && |s.buffers| == 2 && s.idx < 2
    && match s.texture
       case None => s.buffers == [None, None]
       case Some(pixels) =>
         && IsFrame(pixels, s.width, s.height)
         && IsStaging(s.buffers[0], s.width, s.height) && IsStaging(s.buffers[1], s.width, s.height)
  }

  type ShapedCap = s: Cap | Shaped(s) witness EMPTY

  function SetState(s: Cap, b: nat, state: MapState): Cap
    requires b < |s.buffers| && s.buffers[b].Some?
  {
    s.(buffers := s.buffers[b := Some(s.buffers[b].value.(state := state))])
  }

  predicate InState(s: Cap, b: nat, state: MapState) {
    b < |s.buffers| && s.buffers[b].Some? && s.buffers[b].value.state == state
  }

  /** The environment runs one callback, if it is due. */
  function Fire(s: Cap, cb: Callback): Cap {
    match cb
    case OfBuffer(b) =>
      if InState(s, b, MapRequested) then SetState(s, b, Mapped).(mapReady := true) else s
    case MapFailed(b) =>
      if InState(s, b, MapRequested) then SetState(s, b, Unmapped).(mapReady := true) else s
    case OfDropped =>
      if s.dropped > 0 then s.(dropped := s.dropped - 1, mapReady := true) else s
  }

  function FireAll(s: Cap, cbs: seq<Callback>): Cap
    decreases |cbs|
  {
    if cbs == [] then s else FireAll(Fire(s, cbs[0]), cbs[1..])
  }

  function OfDroppedIn(cbs: seq<Callback>): nat {
    if cbs == [] then 0 else (if cbs[0].OfDropped? then 1 else 0) + OfDroppedIn(cbs[1..])
  }

  /** Each callback still owed by a replaced buffer runs once, and sets the flag. */
  lemma {:induction false} OwedCallbacksRunOnce(s: Cap, cbs: seq<Callback>)
    ensures
      var t := FireAll(s, cbs);
      && t.dropped == (if OfDroppedIn(cbs) >= s.dropped then 0 else s.dropped - OfDroppedIn(cbs))
      && (s.mapReady || (s.dropped > 0 && OfDroppedIn(cbs) > 0) ==> t.mapReady)
    decreases |cbs|
  {
    if cbs != [] {
      OwedCallbacksRunOnce(Fire(s, cbs[0]), cbs[1..]);
    }
  }

  datatype Attempt = Fault | Done(next: Cap, result: Option<seq<byte>>, copied: bool)

  lemma {:induction false} FiringKeepsShape(s: Cap, cbs: seq<Callback>)
    requires Shaped(s)
    decreases |cbs|
    ensures
      var t := FireAll(s, cbs);
      && Shaped(t) && t.texture == s.texture && t.idx == s.idx && t.pending == s.pending
      && t.width == s.width && t.height == s.height
  {
    if cbs != [] {
      FiringKeepsShape(Fire(s, cbs[0]), cbs[1..]);
    }
  }

  function ReadBack(s: Cap, b: nat): seq<byte>
    requires Shaped(s) && s.texture.Some? && b < 2
  {
    Unpad(s.buffers[b].value.data, 4 * s.width, AlignedBpr(s.width), s.height)
  }

  /** Copy the texture into the current buffer, request its mapping, and swap. */
  function CopyAndMap(s: Cap): Cap
    requires Shaped(s) && s.texture.Some?
  {
    var data := CopyRows(s.buffers[s.idx].value.data, s.texture.value, 4 * s.width, AlignedBpr(s.width), s.height);
    s.(buffers := s.buffers[s.idx := Some(Staging(MapRequested, data))], idx := 1 - s.idx, pending := true)
  }

  /** The first look at the flag: read the other buffer back if a capture is pending and the flag is set. */
  function FirstLook(s: Cap): (a: Attempt)
    requires Shaped(s) && s.texture.Some?
    ensures a.Done? ==> Shaped(a.next) && a.next.texture.Some?
  {
    var prev := 1 - s.idx;
    if !s.pending || !s.mapReady then Done(s, None, false)
    else if !InState(s, prev, Mapped) then Fault
    else Done(SetState(s, prev, Unmapped).(mapReady := false), Some(ReadBack(s, prev)), false)
  }

  /** The second look: copy into the current buffer unless a capture is pending, unready and not just consumed. */
  function SecondLook(s: Cap, result: Option<seq<byte>>): Attempt
    requires Shaped(s) && s.texture.Some?
  {
    if s.pending && !s.mapReady && result.None? then Done(s, result, false)
    else if !InState(s, s.idx, Unmapped) then Fault
    else Done(CopyAndMap(s), result, true)
  }

  /**
  One call of `capture_frame_async`.  The callbacks in `poll` run in the device poll; those in
  `between` run after the first look at the flag and before the second.
  */
  function Capture(s: Cap, poll: seq<Callback>, between: seq<Callback>): Attempt
    requires Shaped(s)
  {
    if s.texture.None? then Done(s, None, false)
    else
      FiringKeepsShape(s, poll);
      match FirstLook(FireAll(s, poll))
      case Fault => Fault
      case Done(consumed, result, _) =>
        FiringKeepsShape(consumed, between);
        SecondLook(FireAll(consumed, between), result)
  }

  function Requested(s: Cap, b: nat): nat { if InState(s, b, MapRequested) then 1 else 0 }

  /** `ensure_frame_capture`: nothing if the size is right, otherwise everything anew. */
  function Ensure(s: Cap, width: nat, height: nat): Cap {
    if s.width == width && s.height == height && s.texture.Some? then s
    else
      var blank := Some(Staging(Unmapped, seq(Bytes(height, AlignedBpr(width)), _ => 0)));
      Cap(Some(seq(Bytes(height, 4 * width), _ => 0)), [blank, blank], 0, false, false, width, height,
          s.dropped + Requested(s, 0) + Requested(s, 1))
  }

  /** MAIN invariant: the current buffer is free; the other is in use exactly while a capture is pending, and the flag tells whether it can be read. */
  predicate Inv(s: Cap) {
    && Shaped(s) && s.dropped == 0
    && (s.texture.None? ==> !s.pending && !s.mapReady)
    && (s.texture.Some? ==>
          && InState(s, s.idx, Unmapped)
          && InState(s, 1 - s.idx, if !s.pending then Unmapped else if s.mapReady then Mapped else MapRequested)
          && (s.mapReady ==> s.pending))
  }

  /** The frame that has been copied and not yet returned. */
  function InFlight(s: ShapedCap): seq<seq<byte>> {
    if s.texture.Some? && s.pending then [ReadBack(s, 1 - s.idx)] else []
  }

  /** What becomes of the map of buffer `b` when the callbacks run. */
  datatype Fate = Silent | Succeeds | Fails

  function FateOf(cbs: seq<Callback>, b: nat): Fate {
    if cbs == [] then Silent
    else if cbs[0] == OfBuffer(b) then Succeeds
    else if cbs[0] == MapFailed(b) then Fails
    else FateOf(cbs[1..], b)
  }

  /** A map is outstanding. */
  predicate Awaiting(s: Cap) { s.texture.Some? && s.pending && !s.mapReady }

  function Fired(s: Cap, fate: Fate): Cap
    requires Inv(s)
  {
    if !Awaiting(s) || fate == Silent then s
    else SetState(s, 1 - s.idx, if fate == Succeeds then Mapped else Unmapped).(mapReady := true)
  }

  lemma {:induction false} NothingDue(s: Cap, cbs: seq<Callback>)
    requires s.dropped == 0 && |s.buffers| == 2 && !InState(s, 0, MapRequested) && !InState(s, 1, MapRequested)
    ensures FireAll(s, cbs) == s
    decreases |cbs|
  {
    if cbs != [] {
      NothingDue(s, cbs[1..]);
    }
  }

  /** Callbacks can only settle the one outstanding map, and the first to do so counts. */
  lemma {:induction false} FiringSettlesTheMap(s: Cap, cbs: seq<Callback>)
    requires Inv(s)
    ensures FireAll(s, cbs) == Fired(s, FateOf(cbs, 1 - s.idx))
    decreases |cbs|
  {
    if !Awaiting(s) {
      NothingDue(s, cbs);
    } else if cbs != [] {
      if cbs[0] == OfBuffer(1 - s.idx) || cbs[0] == MapFailed(1 - s.idx) {
        NothingDue(Fire(s, cbs[0]), cbs[1..]);
      } else {
        assert Fire(s, cbs[0]) == s;
        FiringSettlesTheMap(s, cbs[1..]);
      }
    }
  }

  lemma FiredKeepsInv(s: Cap, fate: Fate)
    requires Inv(s) && !(Awaiting(s) && fate == Fails)
    ensures Inv(Fired(s, fate)) && InFlight(Fired(s, fate)) == InFlight(s)
  {
  }

  /** What `copied` and `result` add to the two sides of the ledger. */
  function Listed(frame: Option<seq<byte>>): seq<seq<byte>> { if frame.Some? then [frame.value] else [] }

  /** The map fails before the first look at the flag, or is settled, either way, between the first look and the second. */
  predicate Misfires(s: Cap, poll: seq<Callback>, between: seq<Callback>)
    requires s.idx < 2
  {
    var first, second := FateOf(poll, 1 - s.idx), FateOf(between, 1 - s.idx);
    Awaiting(s) && (first == Fails || (first == Silent && second != Silent))
  }

  /** Whether the call finds a frame to return. */
  predicate Ready(s: Cap, poll: seq<Callback>)
    requires s.idx < 2
  {
    s.pending && (s.mapReady || FateOf(poll, 1 - s.idx) == Succeeds)
  }

  /** The other buffer has just been read, or nothing is pending: copy, whatever callbacks say. */
  lemma CopyGoesAhead(s: Cap, between: seq<Callback>)
    requires Shaped(s) && s.dropped == 0 && s.texture.Some? && !s.mapReady
    requires InState(s, s.idx, Unmapped) && InState(s, 1 - s.idx, Unmapped)
    ensures FireAll(s, between) == s
    ensures Inv(CopyAndMap(s)) && InFlight(CopyAndMap(s)) == [s.texture.value]
  {
    NothingDue(s, between);
    UnpadUndoesCopy(s.buffers[s.idx].value.data, s.texture.value, 4 * s.width, AlignedBpr(s.width), s.height);
  }

  /** Reading the other buffer back frees it and returns the frame in flight. */
  lemma ConsumedIsFree(s: Cap)
    requires Inv(s) && s.texture.Some? && s.pending && s.mapReady
    ensures
      var a := FirstLook(s);
      && a.Done? && Listed(a.result) == InFlight(s) && a.next == SetState(s, 1 - s.idx, Unmapped).(mapReady := false)
      && InState(a.next, s.idx, Unmapped) && InState(a.next, 1 - s.idx, Unmapped)
  {
  }

  /** MAIN: one call, with any callbacks that do not misfire: when it copies, when it returns a frame, and which. */
  lemma CaptureKeepsInv(s: Cap, poll: seq<Callback>, between: seq<Callback>)
    requires Inv(s) && s.texture.Some? && !Misfires(s, poll, between)
    ensures
      var ready := Ready(s, poll);
      var a := Capture(s, poll, between);
      && a.Done? && Inv(a.next)
      && (a.copied <==> !s.pending || ready)
      && (a.result.Some? <==> ready)
      && Listed(a.result) + InFlight(a.next) == InFlight(s) + (if a.copied then [s.texture.value] else [])
      && a.next.width == s.width && a.next.height == s.height && a.next.texture == s.texture
  {
    FiringSettlesTheMap(s, poll);
    FiringKeepsShape(s, poll);
    var polled := FireAll(s, poll);
    FiredKeepsInv(s, FateOf(poll, 1 - s.idx));
    if Ready(s, poll) {
      ConsumedIsFree(polled);
      CopyGoesAhead(FirstLook(polled).next, between);
    } else if !polled.pending {
      CopyGoesAhead(polled, between);
    } else {
      FiringSettlesTheMap(polled, between);
    }
  }

  // ---------------------------------------------------------------- exactly when the protocol is safe

  /** A failed map announces a buffer that is not mapped: whatever follows, the next call reads it and faults. */
  lemma {:induction false} FailedMapFaults(s: Cap, cbs: seq<Callback>, poll: seq<Callback>, between: seq<Callback>)
    requires Inv(s) && Awaiting(s) && FateOf(cbs, 1 - s.idx) == Fails
    ensures
      var t := FireAll(s, cbs);
      Shaped(t) && !Inv(t) && Capture(t, poll, between).Fault? && Capture(s, cbs, between).Fault?
  {
    FiringKeepsShape(s, cbs);
    FiringSettlesTheMap(s, cbs);
    var t := FireAll(s, cbs);
    NothingDue(t, poll);
    NothingDue(t, []);
  }

  /** A map that fails between the two looks lets the call copy on: the flag is set for the new, unmapped buffer, and the frame before is lost. */
  lemma LateFailureFaults(s: Cap, poll: seq<Callback>, between: seq<Callback>)
    requires Inv(s) && Awaiting(s) && FateOf(poll, 1 - s.idx) == Silent && FateOf(between, 1 - s.idx) == Fails
    ensures
      var a := Capture(s, poll, between);
      a.Done? && a.result.None? && a.copied && Shaped(a.next) && !Inv(a.next) && Capture(a.next, [], []).Fault?
  {
    FiringSettlesTheMap(s, poll);
    FiringSettlesTheMap(s, between);
    FiringKeepsShape(s, between);
    var next := CopyAndMap(FireAll(s, between));
    assert Capture(s, poll, between) == Done(next, None, true);
    assert FireAll(next, []) == next;
  }

  /** A mapped current buffer stays mapped, and the flag stays set. */
  lemma {:induction false} BothInUse(s: Cap, cbs: seq<Callback>)
    requires Shaped(s) && s.dropped == 0 && s.pending && s.mapReady && InState(s, s.idx, Mapped)
    ensures
      var t := FireAll(s, cbs);
      && t.dropped == 0 && t.pending && t.mapReady && t.idx == s.idx && |t.buffers| == 2
      && InState(t, s.idx, Mapped)
    decreases |cbs|
  {
    if cbs != [] {
      BothInUse(Fire(s, cbs[0]), cbs[1..]);
    }
  }

  /** A map that completes between the two looks leaves a mapped buffer current: whatever callbacks run, the next call faults. */
  lemma RacedCaptureFaults(s: Cap, poll: seq<Callback>, between: seq<Callback>, poll': seq<Callback>, between': seq<Callback>)
    requires Inv(s) && Awaiting(s) && FateOf(poll, 1 - s.idx) == Silent && FateOf(between, 1 - s.idx) == Succeeds
    ensures
      var a := Capture(s, poll, between);
      a.Done? && Shaped(a.next) && !Inv(a.next) && Capture(a.next, poll', between').Fault?
  {
    FiringSettlesTheMap(s, poll);
    FiringSettlesTheMap(s, between);
    FiringKeepsShape(s, between);
    var next := CopyAndMap(FireAll(s, between));
    assert Capture(s, poll, between) == Done(next, None, true);
    FiringKeepsShape(next, poll');
    BothInUse(next, poll');
    var again := FireAll(next, poll');
    if InState(again, 1 - again.idx, Mapped) {
      var consumed := SetState(again, 1 - again.idx, Unmapped).(mapReady := false);
      NothingDue(consumed, between');
    }
  }

  /** A size change while a map is outstanding lets the old buffer's callback announce a new buffer that is not mapped. */
  lemma StaleCallbackFaults(s: Cap, width: nat, height: nat)
    requires Inv(s) && s.texture.Some? && s.pending && !s.mapReady && (s.width != width || s.height != height)
    ensures
      var resized := Ensure(s, width, height);
      && Shaped(resized) && !Inv(resized)
      && var a := Capture(resized, [], []);
         a.Done? && Shaped(a.next) && Capture(a.next, [OfDropped], []).Fault?
  {
    var resized := Ensure(s, width, height);
    assert InState(s, 1 - s.idx, MapRequested) && Requested(s, 1 - s.idx) == 1;
    var next := CopyAndMap(resized);
    assert Capture(resized, [], []) == Done(next, None, true);
    var fired := Fire(next, OfDropped);
    assert FireAll(next, [OfDropped]) == fired by {
      assert [OfDropped][1..] == [];
    }
    assert fired.mapReady && fired.pending && !InState(fired, 1 - fired.idx, Mapped);
  }

  datatype Action =
    | Resize(width: nat, height: nat)
    | Render(pixels: seq<byte>)
    | Callbacks(cbs: seq<Callback>)
    | CaptureAsync(poll: seq<Callback>, between: seq<Callback>)

  datatype Outcome = Faulted | Went(last: ShapedCap, returned: seq<seq<byte>>, copied: seq<seq<byte>>)

  lemma CaptureKeepsShape(s: Cap, poll: seq<Callback>, between: seq<Callback>)
    requires Shaped(s)
    ensures
      var a := Capture(s, poll, between);
      a.Done? ==> Shaped(a.next) && (a.copied ==> s.texture.Some?)
  {
    FiringKeepsShape(s, poll);
    var polled := FireAll(s, poll);
    if s.texture.Some? && InState(polled, 1 - polled.idx, Mapped) {
      FiringKeepsShape(SetState(polled, 1 - polled.idx, Unmapped).(mapReady := false), between);
    }
    FiringKeepsShape(polled, between);
  }

  function Do(s: ShapedCap, act: Action): Outcome {
    match act
    case Resize(width, height) => Went(Ensure(s, width, height), [], [])
    case Render(pixels) =>
      Went(if s.texture.Some? && IsFrame(pixels, s.width, s.height) then s.(texture := Some(pixels)) else s, [], [])
    case Callbacks(cbs) =>
      FiringKeepsShape(s, cbs);
      Went(FireAll(s, cbs), [], [])
    case CaptureAsync(poll, between) =>
      CaptureKeepsShape(s, poll, between);
      match Capture(s, poll, between)
      case Fault => Faulted
      case Done(next, result, copied) =>
        Went(next, Listed(result), if copied then [s.texture.value] else [])
  }

  /** A size change needs the outstanding map to have completed; a map must not fail; a capture must not misfire. */
  predicate Allowed(s: Cap, act: Action)
    requires s.idx < 2
  {
    match act
    case Resize(width, height) =>
      (s.width == width && s.height == height && s.texture.Some?) || !s.pending || s.mapReady
    case Callbacks(cbs) => !(Awaiting(s) && FateOf(cbs, 1 - s.idx) == Fails)
    case CaptureAsync(poll, between) => !Misfires(s, poll, between)
    case _ => true
  }

  lemma CapturesExactly(s: Cap, poll: seq<Callback>, between: seq<Callback>)
    requires Inv(s) && s.texture.Some?
    ensures
      var a := Capture(s, poll, between);
      && ((a.Done? && Inv(a.next)) <==> !Misfires(s, poll, between))
      && (a.Fault? <==> Awaiting(s) && FateOf(poll, 1 - s.idx) == Fails)
  {
    if !Misfires(s, poll, between) {
      CaptureKeepsInv(s, poll, between);
    } else if FateOf(poll, 1 - s.idx) == Fails {
      FailedMapFaults(s, poll, [], between);
    } else if FateOf(between, 1 - s.idx) == Fails {
      LateFailureFaults(s, poll, between);
    } else {
      RacedCaptureFaults(s, poll, between, [], []);
    }
  }

  /** MAIN: exactly which actions of caller and device keep the protocol safe, and which fault at once. */
  lemma SafeExactlyWhenAllowed(s: Cap, act: Action)
    requires Inv(s)
    ensures
      var o := Do(s, act);
      && ((o.Went? && Inv(o.last)) <==> Allowed(s, act))
      && (o.Faulted? <==> act.CaptureAsync? && Awaiting(s) && FateOf(act.poll, 1 - s.idx) == Fails)
  {
    match act
    case Resize(width, height) =>
    case Render(_) =>
    case Callbacks(cbs) => FiringSettlesTheMap(s, cbs);
    case CaptureAsync(poll, between) =>
      CaptureKeepsShape(s, poll, between);
      if s.texture.Some? {
        CapturesExactly(s, poll, between);
      }
  }

  function Run(s: ShapedCap, acts: seq<Action>): Outcome
    decreases |acts|
  {
    if acts == [] then Went(s, [], [])
    else
      match Do(s, acts[0])
      case Faulted => Faulted
      case Went(next, returned, copied) =>
        match Run(next, acts[1..])
        case Faulted => Faulted
        case Went(last, moreReturned, moreCopied) => Went(last, returned + moreReturned, copied + moreCopied)
  }

  /** Every action is allowed when its turn comes. */
  ghost predicate OnCourse(s: ShapedCap, acts: seq<Action>)
    decreases |acts|
  {
    acts == [] || (Allowed(s, acts[0]) && (Do(s, acts[0]).Went? ==> OnCourse(Do(s, acts[0]).last, acts[1..])))
  }

  predicate ChangesSize(s: Cap, act: Action) {
    act.Resize? && !(s.width == act.width && s.height == act.height && s.texture.Some?)
  }

  /** The frame that a size change takes with it. */
  function LostBy(s: ShapedCap, act: Action): seq<seq<byte>> {
    if ChangesSize(s, act) then InFlight(s) else []
  }

  ghost predicate Accounted(s: ShapedCap, act: Action) {
    var o := Do(s, act);
    o.Went? && Inv(o.last) && LostBy(s, act) + o.returned + InFlight(o.last) == InFlight(s) + o.copied
  }

  lemma ResizeAccounted(s: Cap, width: nat, height: nat)
    requires Inv(s) && Allowed(s, Resize(width, height))
    ensures Accounted(s, Resize(width, height))
  {
  }

  lemma RenderAccounted(s: Cap, pixels: seq<byte>)
    requires Inv(s)
    ensures Accounted(s, Render(pixels))
  {
  }

  lemma CallbacksAccounted(s: Cap, cbs: seq<Callback>)
    requires Inv(s) && Allowed(s, Callbacks(cbs))
    ensures Accounted(s, Callbacks(cbs))
  {
    FiringSettlesTheMap(s, cbs);
    FiringKeepsShape(s, cbs);
    FiredKeepsInv(s, FateOf(cbs, 1 - s.idx));
  }

  lemma CaptureAccounted(s: Cap, poll: seq<Callback>, between: seq<Callback>)
    requires Inv(s) && Allowed(s, CaptureAsync(poll, between))
    ensures Accounted(s, CaptureAsync(poll, between))
  {
    if s.texture.Some? {
      CaptureKeepsInv(s, poll, between);
    }
  }

  lemma AllowedStep(s: Cap, act: Action)
    requires Inv(s) && Allowed(s, act)
    ensures Accounted(s, act)
  {
    match act
    case Resize(width, height) => ResizeAccounted(s, width, height);
    case Render(pixels) => RenderAccounted(s, pixels);
    case Callbacks(cbs) => CallbacksAccounted(s, cbs);
    case CaptureAsync(poll, between) => CaptureAccounted(s, poll, between);
  }

  /** How many frames the size changes of a run lose. */
  ghost function Losses(s: ShapedCap, acts: seq<Action>): nat
    decreases |acts|
  {
    if acts == [] || Do(s, acts[0]).Faulted? then 0
    else |LostBy(s, acts[0])| + Losses(Do(s, acts[0]).last, acts[1..])
  }

  /** How often a run changes the size. */
  ghost function SizeChanges(s: ShapedCap, acts: seq<Action>): nat
    decreases |acts|
  {
    if acts == [] || Do(s, acts[0]).Faulted? then 0
    else (if ChangesSize(s, acts[0]) then 1 else 0) + SizeChanges(Do(s, acts[0]).last, acts[1..])
  }

  /** `kept` is `all` in the same order, with `lost` of its elements missing. */
  ghost predicate Missing<T>(all: seq<T>, kept: seq<T>, lost: nat)
    decreases |all|
  {
    if all == [] then kept == [] && lost == 0
    else
      || (kept != [] && kept[0] == all[0] && Missing(all[1..], kept[1..], lost))
      || (lost > 0 && Missing(all[1..], kept, lost - 1))
  }

  lemma {:induction false} MissingAfter<T>(prefix: seq<T>, all: seq<T>, kept: seq<T>, lost: nat)
    requires Missing(all, kept, lost)
    ensures Missing(prefix + all, prefix + kept, lost)
    decreases |prefix|
  {
    if prefix == [] {
      assert prefix + all == all && prefix + kept == kept;
    } else {
      MissingAfter(prefix[1..], all, kept, lost);
      assert (prefix + all)[1..] == prefix[1..] + all && (prefix + kept)[1..] == prefix[1..] + kept;
    }
  }

  lemma {:induction false} MissingCounts<T>(all: seq<T>, kept: seq<T>, lost: nat)
    requires Missing(all, kept, lost)
    ensures |all| == |kept| + lost
    ensures lost == 0 ==> kept == all
    decreases |all|
  {
    if all != [] {
      if kept != [] && kept[0] == all[0] && Missing(all[1..], kept[1..], lost) {
        MissingCounts(all[1..], kept[1..], lost);
        assert kept == [kept[0]] + kept[1..] && all == [all[0]] + all[1..];
      } else {
        MissingCounts(all[1..], kept, lost - 1);
      }
    }
  }

  /** One step of the ledger: `gone` is lost at once, `out` is returned, the rest of the run follows. */
  lemma LedgerStep<T>(gone: seq<T>, out: seq<T>, middle: seq<T>, before: seq<T>, in_: seq<T>,
                      in': seq<T>, out': seq<T>, after: seq<T>, lost: nat)
    requires |gone| <= 1 && gone + out + middle == before + in_ && Missing(middle + in', out' + after, lost)
    ensures Missing(before + (in_ + in'), (out + out') + after, |gone| + lost)
  {
    var all := before + (in_ + in');
    MissingAfter(out, middle + in', out' + after, lost);
    assert out + (out' + after) == (out + out') + after;
    assert all == (before + in_) + in' == gone + (out + (middle + in'));
    if gone != [] {
      assert all[1..] == out + (middle + in');
    } else {
      assert all == out + (middle + in');
    }
  }

  /** The books of a run: what it returned, what size changes lost, and how many there were. */
  datatype Books = Books(o: Outcome, losses: nat, changes: nat)

  ghost function BooksOf(s: ShapedCap, acts: seq<Action>): Books {
    Books(Run(s, acts), Losses(s, acts), SizeChanges(s, acts))
  }

  /** With `flight` in flight at the start, the books balance. */
  ghost predicate Balanced(flight: seq<seq<byte>>, b: Books) {
    && b.losses <= b.changes && b.o.Went?
    && Missing(flight + b.o.copied, b.o.returned + InFlight(b.o.last), b.losses)
  }

  lemma BalancedFirst(flight: seq<seq<byte>>, lost: seq<seq<byte>>, change: nat, o: Outcome, rest: Books, b: Books)
    requires o.Went? && |lost| <= change && |lost| <= 1
    requires lost + o.returned + InFlight(o.last) == flight + o.copied && Balanced(InFlight(o.last), rest)
    requires b == Books(Went(rest.o.last, o.returned + rest.o.returned, o.copied + rest.o.copied),
                        |lost| + rest.losses, change + rest.changes)
    ensures Balanced(flight, b)
  {
    LedgerStep(lost, o.returned, InFlight(o.last), flight, o.copied,
               rest.o.copied, rest.o.returned, InFlight(rest.o.last), rest.losses);
  }

  lemma RunEmpty(s: ShapedCap, acts: seq<Action>)
    requires acts == []
    ensures Balanced(InFlight(s), BooksOf(s, acts))
  {
    MissingAfter(InFlight(s), [], [], 0);
    assert InFlight(s) + [] == InFlight(s) && [] + InFlight(s) == InFlight(s);
  }

  /** MAIN, safety: over every run of allowed actions no buffer is misused. */
  lemma {:induction false} AllowedRunIsSafe(s: Cap, acts: seq<Action>)
    requires Inv(s) && OnCourse(s, acts)
    ensures Run(s, acts).Went? && Inv(Run(s, acts).last)
    decreases |acts|
  {
    if acts != [] {
      AllowedStep(s, acts[0]);
      AllowedRunIsSafe(Do(s, acts[0]).last, acts[1..]);
    }
  }

  lemma BooksFirst(s: ShapedCap, acts: seq<Action>, o: Outcome, change: nat, rest: Books)
    requires acts != [] && o == Do(s, acts[0]) && o.Went? && change == (if ChangesSize(s, acts[0]) then 1 else 0)
    requires rest == BooksOf(o.last, acts[1..]) && rest.o.Went?
    ensures BooksOf(s, acts) ==
            Books(Went(rest.o.last, o.returned + rest.o.returned, o.copied + rest.o.copied),
                  |LostBy(s, acts[0])| + rest.losses, change + rest.changes)
    ensures |LostBy(s, acts[0])| <= change
  {
  }

  /**
  MAIN: over every run of allowed actions, however callbacks are timed and sizes change, the frames
  returned are the frames copied, in order: the latest may be still to come, and each size change loses
  at most the one in flight.
  */
  lemma {:induction false} FramesSurviveAllButResizes(s: Cap, acts: seq<Action>, b: Books)
    requires Inv(s) && OnCourse(s, acts) && b == BooksOf(s, acts)
    ensures Balanced(InFlight(s), b)
    decreases |acts|
  {
    if acts == [] {
      RunEmpty(s, acts);
    } else {
      AllowedStep(s, acts[0]);
      var o := Do(s, acts[0]);
      var rest := BooksOf(o.last, acts[1..]);
      FramesSurviveAllButResizes(o.last, acts[1..], rest);
      var change := if ChangesSize(s, acts[0]) then 1 else 0;
      BooksFirst(s, acts, o, change, rest);
      BalancedFirst(InFlight(s), LostBy(s, acts[0]), change, o, rest, b);
    }
  }

  /** Staging buffers for frames of that size. */
  predicate HoldsFrames(b: Option<Staging>, width: nat, height: nat) {
    b.Some? && |b.value.data| == Bytes(height, AlignedBpr(width)) && AlignedBpr(width) >= 4 * width
  }

  /** MAIN: the size asked for is the size obtained, and asking again changes nothing. */
  lemma ResizeGives(s: Cap, width: nat, height: nat)
    requires Shaped(s)
    ensures
      var t := Ensure(s, width, height);
      && t.width == width && t.height == height
      && t.texture.Some? && |t.texture.value| == 4 * width * height
      && |t.buffers| == 2 && HoldsFrames(t.buffers[0], width, height) && HoldsFrames(t.buffers[1], width, height)
      && Ensure(t, width, height) == t
      && (s.width != width || s.height != height || s.texture.None? ==>
            t.idx == 0 && !t.pending && !t.mapReady && InState(t, 0, Unmapped) && InState(t, 1, Unmapped))
      && (s.width == width && s.height == height && s.texture.Some? ==> t == s)
  {
    BytesIsProduct(height, 4 * width);
    AlignedBprIsLeast(width, 0);
    assert 4 * width * height == height * (4 * width);
  }

  /** A copy made after a resize is read back as the frame that was copied. */
  lemma ResizedHoldsTheFrame(s: Cap, width: nat, height: nat, pixels: seq<byte>)
    requires Shaped(s) && (s.width != width || s.height != height || s.texture.None?) && IsFrame(pixels, width, height)
    ensures
      var t := Ensure(s, width, height);
      var copied := CopyAndMap(t.(texture := Some(pixels)));
      Shaped(copied) && ReadBack(copied, 0) == pixels
  {
    var t := Ensure(s, width, height);
    UnpadUndoesCopy(t.buffers[0].value.data, pixels, 4 * width, AlignedBpr(width), height);
  }

  /** Every size asked for is this one. */
  predicate OneSize(acts: seq<Action>, width: nat, height: nat) {
    forall a <- acts :: a.Resize? ==> a.width == width && a.height == height
  }

  predicate SizedIfAny(s: Cap, width: nat, height: nat) { s.texture.Some? ==> s.width == width && s.height == height }

  /** Only a change of size has a frame to lose, and only a Resize changes the size. */
  lemma SizeKept(s: Cap, act: Action, width: nat, height: nat)
    requires Inv(s) && Allowed(s, act) && SizedIfAny(s, width, height)
    requires act.Resize? ==> act.width == width && act.height == height
    ensures LostBy(s, act) == [] && (Do(s, act).Went? ==> SizedIfAny(Do(s, act).last, width, height))
  {
    match act
    case Resize(_, _) => ResizeGives(s, width, height);
    case Render(_) =>
    case Callbacks(cbs) => FiringKeepsShape(s, cbs);
    case CaptureAsync(poll, between) =>
      if s.texture.Some? {
        CaptureKeepsInv(s, poll, between);
      }
  }

  lemma {:induction false} NoLossAtOneSize(s: Cap, acts: seq<Action>, width: nat, height: nat)
    requires Inv(s) && OnCourse(s, acts) && OneSize(acts, width, height) && SizedIfAny(s, width, height)
    ensures Losses(s, acts) == 0
    decreases |acts|
  {
    if acts != [] {
      assert acts[0] in acts && forall a <- acts[1..] :: a in acts;
      AllowedStep(s, acts[0]);
      SizeKept(s, acts[0], width, height);
      NoLossAtOneSize(Do(s, acts[0]).last, acts[1..], width, height);
    }
  }

  /**
  MAIN: asked for one and the same size before every call, from the start on: every frame copied but at
  most the latest has been returned, in order.
  */
  lemma FramesArriveAtOneSize(acts: seq<Action>, width: nat, height: nat)
    requires OnCourse(EMPTY, acts) && OneSize(acts, width, height)
    ensures
      var o := Run(EMPTY, acts);
      && o.Went? && Inv(o.last) && |InFlight(o.last)| <= 1
      && o.returned + InFlight(o.last) == o.copied
  {
    AllowedRunIsSafe(EMPTY, acts);
    NoLossAtOneSize(EMPTY, acts, width, height);
    FramesSurviveAllButResizes(EMPTY, acts, BooksOf(EMPTY, acts));
    var o := Run(EMPTY, acts);
    MissingCounts(InFlight(EMPTY) + o.copied, o.returned + InFlight(o.last), 0);
    assert InFlight(EMPTY) + o.copied == o.copied;
  }

  /** MAIN: at one size nothing is lost. */
  lemma {:induction false} FramesArriveInOrder(s: Cap, acts: seq<Action>)
    requires Inv(s) && OnCourse(s, acts) && SizeChanges(s, acts) == 0
    ensures
      var o := Run(s, acts);
      && o.Went? && Inv(o.last) && |InFlight(o.last)| <= 1
      && o.returned + InFlight(o.last) == InFlight(s) + o.copied
  {
    AllowedRunIsSafe(s, acts);
    FramesSurviveAllButResizes(s, acts, BooksOf(s, acts));
    var o := Run(s, acts);
    MissingCounts(InFlight(s) + o.copied, o.returned + InFlight(o.last), 0);
  }

  lemma CopiesTexture(s: Cap)
    requires Inv(s) && s.texture.Some? && !s.pending
    ensures
      var o := Do(s, CaptureAsync([], []));
      && o.Went? && o.copied == [s.texture.value] && o.returned == []
      && Inv(o.last) && Awaiting(o.last) && InFlight(o.last) == [s.texture.value]
  {
    CaptureKeepsInv(s, [], []);
    var a := Capture(s, [], []);
    assert FireAll(s, []) == s && a == Done(CopyAndMap(s), None, true);
    assert Listed(None) + InFlight(a.next) == InFlight(a.next) && InFlight(s) + [s.texture.value] == [s.texture.value];
  }

  lemma ReturnsInFlight(s: Cap, settled: Callback)
    requires Inv(s) && Awaiting(s) && settled == OfBuffer(1 - s.idx)
    ensures
      var o := Do(s, CaptureAsync([settled], []));
      o.Went? && o.returned == InFlight(s)
  {
    assert FateOf([settled], 1 - s.idx) == Succeeds && FateOf([], 1 - s.idx) == Silent;
    CaptureKeepsInv(s, [settled], []);
    var a := Capture(s, [settled], []);
    assert a.copied && a.result.Some? && InFlight(s) == [ReadBack(s, 1 - s.idx)];
    assert (Listed(a.result) + InFlight(a.next))[0] == a.result.value;
    assert (InFlight(s) + [s.texture.value])[0] == InFlight(s)[0];
  }

  /** MAIN: the frame rendered last is the one that a call copies, and the one that the next call returns once its map is done. */
  lemma RenderedFrameReturns(s: Cap, pixels: seq<byte>, rendered: Outcome, copied: Outcome, returned: Outcome)
    requires Inv(s) && s.texture.Some? && !s.pending && IsFrame(pixels, s.width, s.height)
    requires rendered == Do(s, Render(pixels))
    requires rendered.Went? ==> copied == Do(rendered.last, CaptureAsync([], []))
    requires copied.Went? ==> copied.last.idx < 2 && returned == Do(copied.last, CaptureAsync([OfBuffer(1 - copied.last.idx)], []))
    ensures rendered.Went? && copied.Went? && returned.Went? && copied.copied == returned.returned == [pixels]
  {
    CopiesTexture(s.(texture := Some(pixels)));
    ReturnsInFlight(copied.last, OfBuffer(1 - copied.last.idx));
  }

  // ---------------------------------------------------------------- the class

  // The device's buffer operations, each with the state it demands.

  function MappedRange(b: Staging): seq<byte>
    requires b.state == Mapped
  {
    b.data
  }

  function Unmap(b: Staging): Staging
    requires b.state == Mapped
  {
    b.(state := Unmapped)
  }

  function CopyTexture(b: Staging, pixels: seq<byte>, width: nat, height: nat): (r: Staging)
    requires b.state == Unmapped && IsStaging(Some(b), width, height) && IsFrame(pixels, width, height)
    ensures r.state == Unmapped
  {
    b.(data := CopyRows(b.data, pixels, 4 * width, AlignedBpr(width), height))
  }

  function MapAsync(b: Staging): Staging
    requires b.state == Unmapped
  {
    b.(state := MapRequested)
  }

  ghost predicate Returns(a: Attempt, r: Result<Option<seq<byte>>, ()>, last: Cap) {
    match a
    case Fault => r.Err?
    case Done(next, result, _) => r == Ok(result) && last == next
  }

  class FrameCapturer {
    var texture: Option<seq<byte>>
    const buffers: array<Option<Staging>>
    var bufIdx: nat
    var mapReady: bool
    var pending: bool
    var width: nat
    var height: nat
    /** Not a field of the scene: map callbacks the device still owes from replaced buffers. */
    var dropped: nat

    ghost function Value(): Cap
      reads this, buffers
    {
      Cap(texture, buffers[..], bufIdx, mapReady, pending, width, height, dropped)
    }

    ghost predicate Valid()
      reads this, buffers
    {
      Inv(Value())
    }

    constructor ()
      ensures Value() == EMPTY && Valid() && fresh(buffers)
    {
      texture := None;
      buffers := new Option<Staging>[2](_ => None);
      bufIdx, mapReady, pending, width, height, dropped := 0, false, false, 0, 0, 0;
      new;
      assert buffers[..] == [None, None];
    }

    /** The environment: callbacks that are due run and set the flag. */
    method RunCallbacks(cbs: seq<Callback>)
      requires buffers.Length == 2
      modifies this`mapReady, this`dropped, buffers
      ensures Value() == FireAll(old(Value()), cbs)
    {
      for i := 0 to |cbs|
        invariant FireAll(Value(), cbs[i..]) == FireAll(old(Value()), cbs)
      {
        assert cbs[i..][0] == cbs[i] && cbs[i..][1..] == cbs[i + 1..];
        ghost var before := Value();
        match cbs[i]
        case OfBuffer(b) =>
          if b < 2 && buffers[b].Some? && buffers[b].value.state == MapRequested {
            buffers[b] := Some(buffers[b].value.(state := Mapped));
            mapReady := true;
          }
        case MapFailed(b) =>
          if b < 2 && buffers[b].Some? && buffers[b].value.state == MapRequested {
            buffers[b] := Some(buffers[b].value.(state := Unmapped));
            mapReady := true;
          }
        case OfDropped =>
          if dropped > 0 {
            dropped := dropped - 1;
            mapReady := true;
          }
        assert Value() == Fire(before, cbs[i]);
      }
    }

    method EnsureFrameCapture(width: nat, height: nat)
      requires buffers.Length == 2 && Fits(width, height)
      modifies this, buffers
      ensures Value() == Ensure(old(Value()), width, height)
    {
      if this.width == width && this.height == height && texture.Some? {
        return;
      }
      var bytesPerRow := AlignedBpr(width);
      var blank := Some(Staging(Unmapped, seq(Bytes(height, bytesPerRow), _ => 0)));
      dropped := dropped
        + (if buffers[0].Some? && buffers[0].value.state == MapRequested then 1 else 0)
        + (if buffers[1].Some? && buffers[1].value.state == MapRequested then 1 else 0);
      texture := Some(seq(Bytes(height, 4 * width), _ => 0));
      buffers[0] := blank;
      buffers[1] := blank;
      bufIdx := 0;
      mapReady := false;
      pending := false;
      this.width := width;
      this.height := height;
      assert buffers[..] == [blank, blank];
    }

    /** The renderer draws the next frame into the capture texture. */
    method RenderToCapture(pixels: seq<byte>)
      requires Valid() && texture.Some? && IsFrame(pixels, width, height)
      modifies this`texture
      ensures Value() == old(Value()).(texture := Some(pixels)) && Valid()
    {
      texture := Some(pixels);
    }

    /** Copy the texture into the current buffer, request its mapping and swap. */
    method CopyAndRequestMap()
      requires Shaped(Value()) && texture.Some? && InState(Value(), bufIdx, Unmapped)
      modifies this`bufIdx, this`pending, buffers
      ensures Value() == CopyAndMap(old(Value()))
    {
      var cur := bufIdx;
      assert buffers[..][cur] == buffers[cur] && IsStaging(buffers[cur], width, height);
      var copied := CopyTexture(buffers[cur].value, texture.value, width, height);
      buffers[cur] := Some(MapAsync(copied));
      bufIdx := 1 - cur;
      pending := true;
    }

    /** Read the mapped buffer back and unmap it. */
    method ReadAndUnmap(prev: nat) returns (pixels: seq<byte>)
      requires Shaped(Value()) && texture.Some? && InState(Value(), prev, Mapped)
      modifies this`mapReady, buffers
      ensures pixels == ReadBack(old(Value()), prev)
      ensures Value() == SetState(old(Value()), prev, Unmapped).(mapReady := false)
    {
      assert buffers[..][prev] == buffers[prev] && IsStaging(buffers[prev], width, height);
      var data := MappedRange(buffers[prev].value);
      pixels := ReadRows(data, AlignedBpr(width), width, height);
      buffers[prev] := Some(Unmap(buffers[prev].value));
      mapReady := false;
    }

    method ReadBackIfReady() returns (r: Result<Option<seq<byte>>, ()>)
      requires Shaped(Value()) && texture.Some? && buffers.Length == 2
      modifies this`mapReady, buffers
      ensures Returns(FirstLook(old(Value())), r, Value())
    {
      var prev := 1 - bufIdx;
      if !pending || !mapReady {
        return Ok(None);
      }
      if buffers[prev].value.state != Mapped {
        return Err(());
      }
      var pixels := ReadAndUnmap(prev);
      r := Ok(Some(pixels));
    }

    method CopyIfFree(result: Option<seq<byte>>) returns (r: Result<Option<seq<byte>>, ()>)
      requires Shaped(Value()) && texture.Some? && buffers.Length == 2
      modifies this`bufIdx, this`pending, buffers
      ensures Returns(SecondLook(old(Value()), result), r, Value())
    {
      var canCopy := !pending || mapReady || result.Some?;
      if canCopy {
        if buffers[bufIdx].value.state != Unmapped {
          return Err(());
        }
        CopyAndRequestMap();
      }
      r := Ok(result);
    }

    /**
    The callbacks in `poll` run in the device poll, those in `between` after the first look at the flag.
    `Err` is the device's refusal to read a buffer that is not mapped or to copy into one that is in use.
    */
    method CaptureFrameAsync(poll: seq<Callback>, between: seq<Callback>) returns (r: Result<Option<seq<byte>>, ()>)
      requires Shaped(Value()) && buffers.Length == 2
      modifies this, buffers
      ensures Returns(Capture(old(Value()), poll, between), r, Value())
      ensures old(Valid() && !Misfires(Value(), poll, between)) ==> r.Ok? && Valid()
    {
      ghost var start := Value();
      if Inv(start) && texture.Some? && !Misfires(start, poll, between) {
        CaptureKeepsInv(start, poll, between);
      }
      if texture.None? {
        return Ok(None);
      }
      FiringKeepsShape(start, poll);
      RunCallbacks(poll);
      r := ReadBackIfReady();
      if r.Ok? {
        FiringKeepsShape(Value(), between);
        RunCallbacks(between);
        r := CopyIfFree(r.value);
      }
    }
  }
}
