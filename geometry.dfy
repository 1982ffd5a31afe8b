/** The geometry table (muon_tracker_fixed.cpp, lines 142-174): a base layout of the 24
    tubes of a module, in cm, replicated over 18 module offsets and scaled to mm, and the
    nine module pairs that supply the six tubes of a candidate. */
module Geometry {
  import opened Wrappers

  type Point = (real, real)

  /** geometry_layer: channel -> (x, y) in cm; channels 0-7, 8-15 and 16-23 form the
      bottom, middle and top rows of a module. */
  const LayerPositions: seq<Point> := [
    (1.5, 1.5), (4.5, 1.5), (7.5, 1.5), (10.5, 1.5),
    (13.5, 1.5), (16.5, 1.5), (19.5, 1.5), (22.5, 1.5),
    (3.0, 4.1), (6.0, 4.1), (9.0, 4.1), (12.0, 4.1),
    (15.0, 4.1), (18.0, 4.1), (21.0, 4.1), (24.0, 4.1),
    (1.5, 6.7), (4.5, 6.7), (7.5, 6.7), (10.5, 6.7),
    (13.5, 6.7), (16.5, 6.7), (19.5, 6.7), (22.5, 6.7)]

  /** tdc_offsets: TDCID -> (dx, dy) in cm. */
  const ModuleOffsets: seq<Point> := [
    (-96.0, 0.0), (-96.0, 34.7), (-72.0, 0.0), (-72.0, 34.7),
    (-48.0, 0.0), (-48.0, 34.7), (-24.0, 0.0), (-24.0, 34.7),
    (0.0, 0.0), (0.0, 34.7), (24.0, 0.0), (24.0, 34.7),
    (48.0, 0.0), (48.0, 34.7), (72.0, 0.0), (72.0, 34.7),
    (96.0, 0.0), (96.0, 34.7)]

  /** tdc_pairs: the module pairs (A, B) that form candidates. */
  const ModulePairs: seq<(int, int)> := [(0, 1), (2, 3), (4, 5), (6, 7), (8, 9), (10, 11), (12, 13), (14, 15), (16, 17)]

  const ChannelsPerModule: int := 24

  /** The position of channel ch of module tid in mm. */
  function GeoEntry(tid: int, ch: int): Point
    requires 0 <= tid < |ModuleOffsets| && 0 <= ch < ChannelsPerModule
  {
    ((LayerPositions[ch].0 + ModuleOffsets[tid].0) * 10.0,
     (LayerPositions[ch].1 + ModuleOffsets[tid].1) * 10.0)
  }

  /** position_of: the registered position, or None (an unknown address). */
  function PositionOf(tid: int, ch: int): (r: Option<Point>)
    ensures r.Some? <==> 0 <= tid < |ModuleOffsets| && 0 <= ch < ChannelsPerModule
  {
    if 0 <= tid < |ModuleOffsets| && 0 <= ch < ChannelsPerModule then Some(GeoEntry(tid, ch)) else None
  }

  /** geometry_tdcs as built: one 24-entry row per module offset. */
  predicate IsGeometryTable(geo: seq<seq<Point>>) {
    && |geo| == |ModuleOffsets|
    && (forall tid :: 0 <= tid < |geo| ==> |geo[tid]| == ChannelsPerModule)
    && (forall tid, ch :: 0 <= tid < |geo| && 0 <= ch < ChannelsPerModule ==>
          geo[tid][ch] == GeoEntry(tid, ch))
  }

  /** The construction loop of lines 158-169. */
  method BuildGeometry() returns (geo: seq<seq<Point>>)
    ensures IsGeometryTable(geo)
  {
    geo := [];
    var tid := 0;
    while tid < |ModuleOffsets|
      invariant 0 <= tid <= |ModuleOffsets| && |geo| == tid
      invariant forall t :: 0 <= t < tid ==> |geo[t]| == ChannelsPerModule
      invariant forall t, ch :: 0 <= t < tid && 0 <= ch < ChannelsPerModule ==> geo[t][ch] == GeoEntry(t, ch)
    {
      var dx := ModuleOffsets[tid].0;
      var dy := ModuleOffsets[tid].1;
      var row: seq<Point> := [];
      var ch := 0;
      while ch < ChannelsPerModule
        invariant 0 <= ch <= ChannelsPerModule && |row| == ch
        invariant forall c :: 0 <= c < ch ==> row[c] == GeoEntry(tid, c)
      {
        var p := LayerPositions[ch];
        var xmm := (p.0 + dx) * 10.0;
        var ymm := (p.1 + dy) * 10.0;
        row := row + [(xmm, ymm)];
        ch := ch + 1;
      }
      geo := geo + [row];
      tid := tid + 1;
    }
  }

  // ---------------------------------------------------------------------------
  // The layout the literal tables describe
  // ---------------------------------------------------------------------------

  /** The row of a channel: 0 bottom, 1 middle, 2 top. */
  function Row(ch: int): int
    requires 0 <= ch < ChannelsPerModule
  {
    ch / 8
  }

  /** The staggered layout behind geometry_layer: tubes 3 cm apart, rows 2.6 cm apart,
      the middle row shifted by half a tube. */
  lemma {:induction false} LayerIsStaggered(ch: int)
    requires 0 <= ch < ChannelsPerModule
    ensures LayerPositions[ch].1 == 1.5 + 2.6 * (Row(ch) as real)
    ensures LayerPositions[ch].0 == (if Row(ch) == 1 then 3.0 else 1.5) + 3.0 * ((ch % 8) as real)
  {
    if ch < 8 {
      if ch == 0 {} else if ch == 1 {} else if ch == 2 {} else if ch == 3 {}
      else if ch == 4 {} else if ch == 5 {} else if ch == 6 {} else {}
    } else if ch < 16 {
      if ch == 8 {} else if ch == 9 {} else if ch == 10 {} else if ch == 11 {}
      else if ch == 12 {} else if ch == 13 {} else if ch == 14 {} else {}
    } else {
      if ch == 16 {} else if ch == 17 {} else if ch == 18 {} else if ch == 19 {}
      else if ch == 20 {} else if ch == 21 {} else if ch == 22 {} else {}
    }
  }

  /** Pair p is the even module 2p with the odd module 2p+1 stacked 34.7 cm above it,
      both 24 cm to the right of the previous pair. */
  lemma {:induction false} PairIsStacked(p: int)
    requires 0 <= p < |ModulePairs|
    ensures ModulePairs[p] == (2 * p, 2 * p + 1)
    ensures ModuleOffsets[2 * p] == (-96.0 + 24.0 * (p as real), 0.0)
    ensures ModuleOffsets[2 * p + 1] == (-96.0 + 24.0 * (p as real), 34.7)
  {
    if p == 0 {} else if p == 1 {} else if p == 2 {} else if p == 3 {} else if p == 4 {}
    else if p == 5 {} else if p == 6 {} else if p == 7 {} else {}
  }

  /** The height of a tube in mm: its row above the base of a module, plus 347 mm in the
      upper module of a pair. */
  lemma TubeHeight(p: int, upper: bool, ch: int)
    requires 0 <= p < |ModulePairs| && 0 <= ch < ChannelsPerModule
    ensures GeoEntry(if upper then 2 * p + 1 else 2 * p, ch).1
            == (1.5 + 2.6 * (Row(ch) as real) + (if upper then 34.7 else 0.0)) * 10.0
  {
    PairIsStacked(p);
    LayerIsStaggered(ch);
  }
}
