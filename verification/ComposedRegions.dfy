/** Inspecting a composed frame: the replacement's interior must show its colour,
    and every pixel the replaced window no longer shares must have lost its own. */
module ComposedRegions {
  import opened Prelude

  datatype Rect = Rect(x: int, y: int, width: int, height: int)

  type byte = n: nat | n < 256

  datatype Frame = Frame(xrgb: bool, width: int, height: int, stride: int, bytes: seq<byte>)

  const PROBE: int := 16
  const INSET: int := 8
  const OLD_AREA: int := 160 * 120
  const OLD_RGB: nat := 0x915319
  const NEW_RGB: nat := 0xb73171

  /** Within a signed 32-bit word; leaving it ends the inspection. */
  predicate Fits(n: int) {
    -0x8000_0000 <= n < 0x8000_0000
  }

  function Least(a: int, b: int): int {
    if a <= b then a else b
  }

  function Most(a: int, b: int): int {
    if a >= b then a else b
  }

  // ---- one pixel ----

  predicate InFrame(frame: Frame, x: int, y: int) {
    0 <= x < frame.width && 0 <= y < frame.height
  }

  predicate Inside(r: Rect, x: int, y: int) {
    r.x <= x < r.x + r.width && r.y <= y < r.y + r.height
  }

  function Offset(frame: Frame, x: int, y: int): int {
    y * frame.stride + x * 4
  }

  /** `None` is a failed assertion or an access past the end. */
  function RgbAt(frame: Frame, x: int, y: int): Option<nat> {
    if !frame.xrgb || !InFrame(frame, x, y) || frame.stride < 0 then None
    else
      var offset := Offset(frame, x, y);
      if offset < 0 || offset + 4 > |frame.bytes| then None
      else Some(frame.bytes[offset] as int + 0x100 * frame.bytes[offset + 1] as int
                + 0x1_0000 * frame.bytes[offset + 2] as int)
  }

  /** How a colour is written: blue, green, red; a fourth byte is padding. */
  function Painted(rgb: nat): (s: seq<byte>)
    requires rgb < 0x100_0000
    ensures |s| == 3
  {
    [rgb % 256, rgb / 256 % 256, rgb / 256 / 256]
  }

  lemma ChannelsIff(rgb: nat, blue: byte, green: byte, red: byte)
    ensures rgb == blue as int + 256 * (green as int + 256 * red as int) <==>
      blue == rgb % 256 && green == rgb / 256 % 256 && red == rgb / 256 / 256
  {
    if rgb == blue as int + 256 * (green as int + 256 * red as int) {
      assert rgb / 256 == green as int + 256 * red as int;
    }
  }

  /** A pixel reads as a colour exactly when its first three bytes were painted so. */
  lemma PixelReads(frame: Frame, x: int, y: int, rgb: nat)
    requires rgb < 0x100_0000 && RgbAt(frame, x, y).Some?
    ensures var at := y * frame.stride + 4 * x;
      && 0 <= at && at + 4 <= |frame.bytes|
      && (RgbAt(frame, x, y) == Some(rgb) <==> frame.bytes[at..at + 3] == Painted(rgb))
  {
    var at := Offset(frame, x, y);
    var bytes := frame.bytes;
    assert bytes[at..at + 3] == [bytes[at], bytes[at + 1], bytes[at + 2]];
    ChannelsIff(rgb, bytes[at], bytes[at + 1], bytes[at + 2]);
  }

  /** The two window colours, as the fixture paints them. */
  lemma ColoursPainted()
    ensures Painted(OLD_RGB) == [0x19, 0x53, 0x91] && Painted(NEW_RGB) == [0x71, 0x31, 0xb7]
  {
    ChannelsIff(OLD_RGB, 0x19, 0x53, 0x91);
    ChannelsIff(NEW_RGB, 0x71, 0x31, 0xb7);
  }

  /** A frame whose rows are long enough and all present. */
  predicate Covered(frame: Frame) {
    && frame.xrgb && 0 <= frame.width && 0 <= frame.height
    && 4 * frame.width <= frame.stride && frame.height * frame.stride <= |frame.bytes|
  }

  lemma RowsApart(stride: int, y: int, later: int)
    requires stride >= 0 && y < later
    ensures y * stride + stride <= later * stride
  {
    MulMonotone(0, later - y - 1, stride);
    assert later * stride == y * stride + (later - y - 1) * stride + stride;
  }

  /** In a covered frame every pixel of the frame can be read. */
  lemma PixelsReadable(frame: Frame, x: int, y: int)
    requires Covered(frame)
    ensures RgbAt(frame, x, y).Some? <==> InFrame(frame, x, y)
  {
    if InFrame(frame, x, y) {
      MulMonotone(0, y, frame.stride);
      RowsApart(frame.stride, y, frame.height);
    }
  }

  /** And no two pixels share a byte. */
  lemma PixelsDisjoint(frame: Frame, x: int, y: int, x': int, y': int)
    requires Covered(frame) && InFrame(frame, x, y) && InFrame(frame, x', y') && (x != x' || y != y')
    ensures Offset(frame, x, y) + 4 <= Offset(frame, x', y') || Offset(frame, x', y') + 4 <= Offset(frame, x, y)
  {
    if y < y' {
      RowsApart(frame.stride, y, y');
    } else if y' < y {
      RowsApart(frame.stride, y', y);
    }
  }

  // ---- where the probe goes ----

  /** The part of the target, away from its edge, that the frame shows. */
  function Interior(frame: Frame, target: Rect): Rect {
    var left := Most(target.x + INSET, 0);
    var top := Most(target.y + INSET, 0);
    Rect(left, top,
      Least(target.x + target.width - INSET, frame.width) - left,
      Least(target.y + target.height - INSET, frame.height) - top)
  }

  function Probe(frame: Frame, target: Rect): Rect {
    var i := Interior(frame, target);
    Rect(i.x + (i.width - PROBE) / 2, i.y + (i.height - PROBE) / 2, PROBE, PROBE)
  }

  predicate Shown(frame: Frame, target: Rect) {
    Interior(frame, target).width >= PROBE && Interior(frame, target).height >= PROBE
  }

  /** The probe lies in the frame and keeps the inset from every edge of the target. */
  lemma ProbeInside(frame: Frame, target: Rect, x: int, y: int)
    requires Shown(frame, target) && Inside(Probe(frame, target), x, y)
    ensures InFrame(frame, x, y)
    ensures Inside(Rect(target.x + INSET, target.y + INSET, target.width - 2 * INSET, target.height - 2 * INSET), x, y)
  {
  }

  /** There is room for it exactly when the frame shows sixteen pixels each way of the
      target's inside. */
  lemma ShownIff(frame: Frame, target: Rect)
    ensures Shown(frame, target) <==>
      && Least(target.x + target.width - 8, frame.width) - Most(target.x + 8, 0) >= 16
      && Least(target.y + target.height - 8, frame.height) - Most(target.y + 8, 0) >= 16
  {
  }

  /** And it is the middle of what the frame shows of the target's inside. */
  lemma ProbeCentred(frame: Frame, target: Rect)
    requires Shown(frame, target)
    ensures var left, right := Most(target.x + 8, 0), Least(target.x + target.width - 8, frame.width);
      var top, bottom := Most(target.y + 8, 0), Least(target.y + target.height - 8, frame.height);
      var probe := Probe(frame, target);
      && probe.width == 16 && probe.height == 16
      && 0 <= (right - (probe.x + 16)) - (probe.x - left) <= 1
      && 0 <= (bottom - (probe.y + 16)) - (probe.y - top) <= 1
  {
  }

  // ---- counting what the replaced window showed alone ----

  function Length(from: int, to: int): nat {
    if from < to then to - from else 0
  }

  function Overlap(from: int, to: int, from': int, to': int): nat {
    Length(Most(from, from'), Least(to, to'))
  }

  function Clip(frame: Frame, r: Rect): Rect {
    var x, y := Most(r.x, 0), Most(r.y, 0);
    Rect(x, y, Least(r.x + r.width, frame.width) - x, Least(r.y + r.height, frame.height) - y)
  }

  function Meet(a: Rect, b: Rect): Rect {
    var x, y := Most(a.x, b.x), Most(a.y, b.y);
    Rect(x, y, Least(a.x + a.width, b.x + b.width) - x, Least(a.y + a.height, b.y + b.height) - y)
  }

  function Area(r: Rect): nat {
    Length(0, r.width) * Length(0, r.height)
  }

  predicate OldOnly(frame: Frame, target: Rect, former: Rect, x: int, y: int) {
    InFrame(frame, x, y) && Inside(former, x, y) && !Inside(target, x, y)
  }

  function Outside(from: int, to: int, target: Rect, y: int): int {
    Length(from, to)
    - if target.y <= y < target.y + target.height then Overlap(from, to, target.x, target.x + target.width) else 0
  }

  /** Every pixel in row y, from one column to another, that only the old window
      covered has lost its colour. */
  predicate RowCleared(frame: Frame, target: Rect, from: int, to: int, y: int) {
    forall x :: from <= x < to && !Inside(target, x, y) ==>
      RgbAt(frame, x, y).Some? && RgbAt(frame, x, y) != Some(OLD_RGB)
  }

  method CountRow(frame: Frame, target: Rect, from: int, to: int, y: int) returns (count: Option<nat>)
    ensures count.Some? <==> RowCleared(frame, target, from, to, y)
    ensures count.Some? ==> count.value == Outside(from, to, target, y)
  {
    var n := 0;
    var x := from;
    while x < to
      invariant x == from || from <= x <= to
      invariant RowCleared(frame, target, from, x, y)
      invariant n == Outside(from, x, target, y)
    {
      if x < target.x || x >= target.x + target.width || y < target.y || y >= target.y + target.height {
        n := n + 1;
        var colour := RgbAt(frame, x, y);
        if colour.None? || colour.value == OLD_RGB { return None; }
      }
      x := x + 1;
    }
    count := Some(n);
  }

  predicate Cleared(frame: Frame, target: Rect, left: int, right: int, top: int, bottom: int) {
    forall y :: top <= y < bottom ==> RowCleared(frame, target, left, right, y)
  }

  /** The pixels counted in the rows from `top` to `bottom`. */
  function Counted(target: Rect, left: int, right: int, top: int, bottom: int): int {
    Length(top, bottom) * Length(left, right)
    - Overlap(top, bottom, target.y, target.y + target.height) * Overlap(left, right, target.x, target.x + target.width)
  }

  method CountRows(
    frame: Frame, target: Rect, left: int, right: int, top: int, bottom: int)
    returns (count: Option<int>)
    ensures count.Some? <==> Cleared(frame, target, left, right, top, bottom)
    ensures count.Some? ==> count.value == Counted(target, left, right, top, bottom)
  {
    var n := 0;
    var y := top;
    while y < bottom
      invariant y == top || top <= y <= bottom
      invariant Cleared(frame, target, left, right, top, y)
      invariant n == Counted(target, left, right, top, y)
    {
      var row := CountRow(frame, target, left, right, y);
      if row.None? { return None; }
      RowAdds(target, left, right, top, y);
      n := n + row.value;
      y := y + 1;
    }
    count := Some(n);
  }

  /** The nested loops. Row bounds are added up only once there is a row. */
  method CountOldOnly(frame: Frame, target: Rect, former: Rect) returns (count: Option<int>)
    ensures var c := Clip(frame, former);
      count.Some? <==>
        && Fits(former.y + former.height)
        && (c.height > 0 ==> Fits(former.x + former.width))
        && Cleared(frame, target, c.x, c.x + c.width, c.y, c.y + c.height)
    ensures count.Some? ==>
      count.value == Area(Clip(frame, former)) - Area(Meet(Clip(frame, former), target))
  {
    var c := Clip(frame, former);
    if !Fits(former.y + former.height) || (c.height > 0 && !Fits(former.x + former.width)) { return None; }
    count := CountRows(frame, target, c.x, c.x + c.width, c.y, c.y + c.height);
    CountedAreas(c, target);
  }

  lemma RowAdds(target: Rect, left: int, right: int, top: int, y: int)
    requires top <= y
    ensures Counted(target, left, right, top, y + 1) ==
      Counted(target, left, right, top, y) + Outside(left, right, target, y)
  {
    var from, to := target.y, target.y + target.height;
    assert Length(top, y + 1) == Length(top, y) + 1;
    assert Overlap(top, y + 1, from, to) == Overlap(top, y, from, to) + if from <= y < to then 1 else 0;
    OneMore(Length(top, y), Length(left, right));
    OneMore(Overlap(top, y, from, to), Overlap(left, right, target.x, target.x + target.width));
  }

  lemma OneMore(rows: nat, width: nat)
    ensures (rows + 1) * width == rows * width + width
  {
  }

  lemma CountedAreas(c: Rect, target: Rect)
    ensures Counted(target, c.x, c.x + c.width, c.y, c.y + c.height) == Area(c) - Area(Meet(c, target))
  {
    assert Length(c.x, c.x + c.width) == Length(0, c.width);
    assert Length(c.y, c.y + c.height) == Length(0, c.height);
  }

  /** The rows that must have lost the old colour are exactly the old-only pixels. */
  lemma ClearedIff(frame: Frame, target: Rect, former: Rect)
    ensures var c := Clip(frame, former);
      Cleared(frame, target, c.x, c.x + c.width, c.y, c.y + c.height) <==>
        forall x, y :: OldOnly(frame, target, former, x, y) ==>
          RgbAt(frame, x, y).Some? && RgbAt(frame, x, y) != Some(OLD_RGB)
  {
    var c := Clip(frame, former);
    var right, bottom := c.x + c.width, c.y + c.height;
    if Cleared(frame, target, c.x, right, c.y, bottom) {
      forall x, y | OldOnly(frame, target, former, x, y)
        ensures RgbAt(frame, x, y).Some? && RgbAt(frame, x, y) != Some(OLD_RGB)
      {
        assert RowCleared(frame, target, c.x, right, y);
      }
    }
    if forall x, y :: OldOnly(frame, target, former, x, y) ==>
      RgbAt(frame, x, y).Some? && RgbAt(frame, x, y) != Some(OLD_RGB)
    {
      forall y | c.y <= y < bottom ensures RowCleared(frame, target, c.x, right, y) {
        forall x | c.x <= x < right && !Inside(target, x, y)
          ensures RgbAt(frame, x, y).Some? && RgbAt(frame, x, y) != Some(OLD_RGB)
        {
          assert OldOnly(frame, target, former, x, y);
        }
      }
    }
  }

  /** The count is zero exactly when there is no old-only pixel to inspect. */
  lemma NothingCountedIff(frame: Frame, target: Rect, former: Rect)
    ensures Area(Clip(frame, former)) == Area(Meet(Clip(frame, former), target)) <==>
      forall x, y :: !OldOnly(frame, target, former, x, y)
  {
    var c, m := Clip(frame, former), Meet(Clip(frame, former), target);
    var w, h, mw, mh := Length(0, c.width), Length(0, c.height), Length(0, m.width), Length(0, m.height);
    SameProductIff(w, h, mw, mh);
    if w > 0 && h > 0 {
      if mw < w || mh < h {
        var x := if mw < w && c.x >= target.x then c.x + w - 1 else c.x;
        var y := if mh < h && c.y >= target.y then c.y + h - 1 else c.y;
        assert OldOnly(frame, target, former, x, y);
      }
    }
  }

  lemma SameProductIff(w: nat, h: nat, w': nat, h': nat)
    requires w' <= w && h' <= h
    ensures w * h == w' * h' <==> (w == 0 || h == 0 || (w == w' && h == h'))
  {
    if w == 0 || h == 0 {
      MulMonotone(0, w', h');
    } else {
      MulMonotone(w', w, h');
      MulMonotone(h', h, w');
      if h' < h { MulStrict(h', h, w); }
      if w' < w { MulStrict(w', w, h); }
    }
  }

  /** The pixels of a row from one column to another. */
  ghost function Run(y: int, from: int, width: nat): (s: set<(int, int)>)
    ensures forall p :: p in s <==> p.1 == y && from <= p.0 < from + width
    ensures |s| == width
  {
    if width == 0 then {} else Run(y, from, width - 1) + {(from + width - 1, y)}
  }

  /** The pixels of a rectangle, row by row. */
  ghost function Pixels(x: int, y: int, width: nat, height: nat): (s: set<(int, int)>)
    ensures forall p :: p in s <==> x <= p.0 < x + width && y <= p.1 < y + height
    ensures |s| == width * height
    decreases height
  {
    if height == 0 then {}
    else
      OneMore(height - 1, width);
      Pixels(x, y, width, height - 1) + Run(y + height - 1, x, width)
  }

  ghost function PixelsIn(r: Rect): (s: set<(int, int)>)
    ensures forall p :: p in s <==> Inside(r, p.0, p.1)
    ensures |s| == Area(r)
  {
    Pixels(r.x, r.y, Length(0, r.width), Length(0, r.height))
  }

  lemma OldOnlyIsDifference(frame: Frame, target: Rect, former: Rect, x: int, y: int)
    ensures var c := Clip(frame, former);
      && (OldOnly(frame, target, former, x, y) <==> Inside(c, x, y) && !Inside(Meet(c, target), x, y))
      && (Inside(Meet(c, target), x, y) ==> Inside(c, x, y))
  {
  }

  lemma DifferenceSize<T>(all: set<T>, part: set<T>, rest: set<T>)
    requires part <= all && rest == all - part
    ensures |rest| == |all| - |part|
  {
    assert all == part + rest;
  }

  /** The number returned is the number of pixels only the old window covered. */
  lemma OldOnlyCounted(frame: Frame, target: Rect, former: Rect, pixels: set<(int, int)>)
    requires forall p :: p in pixels <==> OldOnly(frame, target, former, p.0, p.1)
    ensures |pixels| == Area(Clip(frame, former)) - Area(Meet(Clip(frame, former), target))
  {
    var all := PixelsIn(Clip(frame, former));
    var part := PixelsIn(Meet(Clip(frame, former), target));
    forall p ensures (p in pixels <==> p in all && p !in part) && (p in part ==> p in all) {
      OldOnlyIsDifference(frame, target, former, p.0, p.1);
    }
    DifferenceSize(all, part, pixels);
  }

  // ---- the whole inspection ----

  ghost predicate Solid(frame: Frame, r: Rect) {
    forall x, y :: Inside(r, x, y) ==> RgbAt(frame, x, y) == Some(NEW_RGB)
  }

  method ProbeShows(frame: Frame, probe: Rect) returns (ok: bool)
    requires probe.width >= 0 && probe.height >= 0
    ensures ok <==> Solid(frame, probe)
  {
    for y := probe.y to probe.y + probe.height
      invariant forall x', y' :: Inside(probe, x', y') && y' < y ==> RgbAt(frame, x', y') == Some(NEW_RGB)
    {
      for x := probe.x to probe.x + probe.width
        invariant forall x', y' :: Inside(probe, x', y') && (y' < y || (y' == y && x' < x)) ==>
          RgbAt(frame, x', y') == Some(NEW_RGB)
      {
        if RgbAt(frame, x, y) != Some(NEW_RGB) {
          assert Inside(probe, x, y);
          return false;
        }
      }
    }
    ok := true;
  }

  predicate SumsFit(target: Rect, former: Rect, clippedHeight: int) {
    && Fits(target.x + INSET) && Fits(target.y + INSET)
    && Fits(target.x + target.width) && Fits(target.x + target.width - INSET)
    && Fits(target.y + target.height) && Fits(target.y + target.height - INSET)
    && Fits(former.width * former.height) && Fits(former.y + former.height)
    && (clippedHeight > 0 ==> Fits(former.x + former.width))
  }

  /** The sums of a rectangle that stays within 31 bits stay within 32. */
  predicate Ordinary(r: Rect) {
    -0x3fff_fff0 <= r.x < 0x3fff_fff0 && -0x3fff_fff0 <= r.y < 0x3fff_fff0
    && -0x3fff_fff0 <= r.width < 0x3fff_fff0 && -0x3fff_fff0 <= r.height < 0x3fff_fff0
  }

  lemma OrdinarySumsFit(target: Rect, former: Rect, clippedHeight: int)
    requires Ordinary(target) && Ordinary(former)
    requires -0x8000_0000 <= former.width * former.height < 0x8000_0000
    ensures SumsFit(target, former, clippedHeight)
  {
  }

  /** The inspection passes exactly for a frame that shows the new window's
      interior in its colour and nothing of the old one outside it; what it
      returns is then the number of pixels only the old window covered. */
  method AssertComposedRegions(frame: Frame, target: Rect, former: Rect) returns (count: Option<int>)
    ensures count.Some? <==>
      && SumsFit(target, former, Clip(frame, former).height)
      && Shown(frame, target) && Solid(frame, Probe(frame, target))
      && former.width * former.height <= 160 * 120
      && forall x, y :: OldOnly(frame, target, former, x, y) ==>
        RgbAt(frame, x, y).Some? && RgbAt(frame, x, y) != Some(OLD_RGB)
    ensures count.Some? ==> count.value == Area(Clip(frame, former)) - Area(Meet(Clip(frame, former), target))
  {
    ClearedIff(frame, target, former);
    if !Fits(target.x + INSET) || !Fits(target.y + INSET) { return None; }
    if !Fits(target.x + target.width) || !Fits(target.x + target.width - INSET) { return None; }
    if !Fits(target.y + target.height) || !Fits(target.y + target.height - INSET) { return None; }
    if !Shown(frame, target) { return None; }
    var solid := ProbeShows(frame, Probe(frame, target));
    if !solid { return None; }
    if !Fits(former.width * former.height) || former.width * former.height > OLD_AREA { return None; }
    count := CountOldOnly(frame, target, former);
  }
}
