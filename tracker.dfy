/** The pipeline of main (muon_tracker_fixed.cpp, lines 59-470): read the header and the
    hits, build the geometry, cut the trigger range into windows, keep the best fits of
    each window, emit them as bundles and deduplicate the bundles globally. */
module Tracker {
  import opened Wrappers
  import opened Hits
  import opened Ingest
  import opened Geometry
  import opened Windowing
  import opened Candidates
  import opened Bundles
  import opened Dedup

  /** The line fit of line 333 (fit_tangent_line, lines 177-222), supplied by the caller. */
  type Fitter = (seq<real>, seq<real>, seq<real>) -> Option<Line>

  /** The three early exits of main. */
  datatype Failure = EmptyCsv | MissingColumns | NoHits

  // ---------------------------------------------------------------------------
  // Reading the file (lines 60-138)
  // ---------------------------------------------------------------------------

  /** cols are the trimmed comma-separated names of the header line. */
  ghost predicate IsHeaderOf(cols: seq<string>, header: string) {
    && |cols| == |GetlineFields(header)|
    && forall i :: 0 <= i < |cols| ==> IsTrimOf(cols[i], GetlineFields(header)[i])
  }

  /** The header, the column lookups, the corrected required-column check and the data
      lines. lines[0] is the header line; an empty file has no lines. */
  method ReadHits(lines: seq<string>, num: Numerics) returns (r: Result<seq<Hit>, Failure>, ghost cols: seq<string>)
    ensures lines == [] ==> r == Failure(EmptyCsv)
    ensures lines != [] ==> IsHeaderOf(cols, lines[0])
    ensures lines != [] && !HasRequiredColumns(ResolveColumns(cols)) ==> r == Failure(MissingColumns)
    ensures lines != [] && HasRequiredColumns(ResolveColumns(cols)) ==>
              r == Success(ParseRows(lines[1..], |cols|, ResolveColumns(cols), num))
  {
    cols := [];
    if lines == [] {
      return Failure(EmptyCsv), cols;
    }
    var names := ParseHeader(lines[0]);
    cols := names;
    var ix := LocateColumns(names);
    if !HasRequiredColumns(ix) {
      return Failure(MissingColumns), cols;
    }
    RequiredColumnsIndexRows(names);
    var hits := LoadHits(lines[1..], |names|, ix, num);
    r := Success(hits);
  }

  // ---------------------------------------------------------------------------
  // The windows (lines 240-400)
  // ---------------------------------------------------------------------------

  /** The fits window [w0, w0 + WINDOW_SIZE) keeps; a window without hits is skipped
      (line 254). */
  function WindowKept(hits: seq<Hit>, w0: int, fit: Fitter): BestMap {
    var wh := InWindow(hits, w0, w0 + WindowSize);
    if wh == [] then map[] else WindowBest(wh, fit)
  }

  /** Every fit a window keeps can be emitted as a bundle. */
  lemma WindowKeptEmittable(hits: seq<Hit>, w0: int, fit: Fitter)
    ensures forall k :: k in WindowKept(hits, w0, fit) ==> Emittable(WindowKept(hits, w0, fit)[k])
  {
    var wh := InWindow(hits, w0, w0 + WindowSize);
    if wh != [] {
      WindowBestIsGood(wh, fit);
    }
  }

  /** maps[k] is the map the window starting at starts[k] keeps, for every k. */
  ghost predicate AreKept(hits: seq<Hit>, starts: seq<int>, fit: Fitter, maps: seq<BestMap>)
    decreases |starts|
  {
    && |maps| == |starts|
    && (starts != [] ==>
          var n := |starts| - 1;
          AreKept(hits, starts[..n], fit, maps[..n]) && maps[n] == WindowKept(hits, starts[n], fit))
  }

  /** orders[k] is the iteration order of maps[k]. */
  predicate MapsEnumerated(maps: seq<BestMap>, orders: seq<seq<TopKey>>) {
    |orders| == |maps| && forall k :: 0 <= k < |maps| ==> Enumerates(orders[k], maps[k])
  }

  predicate MapsEmittable(maps: seq<BestMap>) {
    forall k, key :: 0 <= k < |maps| && key in maps[k] ==> Emittable(maps[k][key])
  }

  /** The fits of the maps, map by map, each in its iteration order: the order in which
      the saving loop of lines 366-399 visits them across all windows. */
  function Flatten(maps: seq<BestMap>, orders: seq<seq<TopKey>>): (fits: seq<BestFit>)
    requires MapsEnumerated(maps, orders) && MapsEmittable(maps)
    ensures AllEmittable(fits)
  {
    if maps == [] then []
    else
      var n := |maps| - 1;
      Flatten(maps[..n], orders[..n]) + ValuesInOrder(maps[n], orders[n])
  }

  lemma FlattenSnoc(maps: seq<BestMap>, orders: seq<seq<TopKey>>, m: BestMap, o: seq<TopKey>)
    requires MapsEnumerated(maps, orders) && MapsEmittable(maps)
    requires Enumerates(o, m) && forall k :: k in m ==> Emittable(m[k])
    ensures MapsEnumerated(maps + [m], orders + [o]) && MapsEmittable(maps + [m])
    ensures Flatten(maps + [m], orders + [o]) == Flatten(maps, orders) + ValuesInOrder(m, o)
  {
    assert (maps + [m])[..|maps|] == maps;
    assert (orders + [o])[..|orders|] == orders;
  }

  /** Position j of the flattened fits: in the earlier maps, or an entry of the last map. */
  lemma FlattenAt(maps: seq<BestMap>, orders: seq<seq<TopKey>>, j: int)
    requires MapsEnumerated(maps, orders) && MapsEmittable(maps) && 0 <= j < |Flatten(maps, orders)|
    ensures maps != [] && MapsEnumerated(maps[..|maps| - 1], orders[..|maps| - 1]) && MapsEmittable(maps[..|maps| - 1])
    ensures var prev := Flatten(maps[..|maps| - 1], orders[..|maps| - 1]);
            && |Flatten(maps, orders)| == |prev| + |orders[|maps| - 1]|
            && (j < |prev| ==> Flatten(maps, orders)[j] == prev[j])
            && (j >= |prev| ==> Flatten(maps, orders)[j] == maps[|maps| - 1][orders[|maps| - 1][j - |prev|]])
  {
  }

  /** One window (lines 248-399): its hits, their index, the best map of the candidate
      loops, and the map's bundles with track ids from trackId0 on. */
  method ProcessWindow(hits: seq<Hit>, w0: int, geo: seq<seq<Point>>, fit: Fitter, trackId0: int)
    returns (rows: seq<SavedHit>, trackId: int, ghost m: BestMap, ghost order: seq<TopKey>)
    requires IsGeometryTable(geo)
    ensures m == WindowKept(hits, w0, fit)
    ensures forall k :: k in m ==> Emittable(m[k])
    ensures Enumerates(order, m) && AllEmittable(ValuesInOrder(m, order))
    ensures rows == EmittedRows(ValuesInOrder(m, order), trackId0)
    ensures trackId == trackId0 + |order|
  {
    var w1 := w0 + WindowSize;
    var wh := WindowHits(hits, w0, w1);
    if wh == [] {
      m := map[];
      assert ValuesInOrder(m, []) == [];
      return [], trackId0, m, [];
    }
    var index := BuildIndex(wh);
    var best := BestOfWindow(wh, index, geo, fit);
    WindowBestIsGood(wh, fit);
    m := best;
    rows, trackId, order := EmitWindow(best, trackId0);
  }

  /** Appending the map of the next window keeps the maps those of the windows so far. */
  lemma KeptSnoc(hits: seq<Hit>, starts: seq<int>, fit: Fitter, maps: seq<BestMap>, k: int, m: BestMap)
    requires 0 <= k < |starts| && AreKept(hits, starts[..k], fit, maps)
    requires m == WindowKept(hits, starts[k], fit)
    ensures AreKept(hits, starts[..k + 1], fit, maps + [m])
  {
    assert starts[..k + 1][..k] == starts[..k];
    assert (maps + [m])[..k] == maps;
  }

  /** The window loop of lines 247-400, with the best map of each window computed as the
      candidate loops compute it. Track ids run on from 0 across windows. */
  method ProcessWindows(hits: seq<Hit>, starts: seq<int>, geo: seq<seq<Point>>, fit: Fitter)
    returns (outRows: seq<SavedHit>, ghost maps: seq<BestMap>, ghost orders: seq<seq<TopKey>>, ghost fits: seq<BestFit>)
    requires IsGeometryTable(geo)
    ensures AreKept(hits, starts, fit, maps)
    ensures MapsEnumerated(maps, orders) && MapsEmittable(maps)
    ensures fits == Flatten(maps, orders) && outRows == EmittedRows(fits, 0)
  {
    outRows, maps, orders, fits := [], [], [], [];
    var trackId := 0;
    for k := 0 to |starts|
      invariant AreKept(hits, starts[..k], fit, maps)
      invariant MapsEnumerated(maps, orders) && MapsEmittable(maps)
      invariant fits == Flatten(maps, orders) && outRows == EmittedRows(fits, 0)
      invariant trackId == |fits|
    {
      var rows;
      ghost var m, order;
      rows, trackId, m, order := ProcessWindow(hits, starts[k], geo, fit, trackId);
      KeptSnoc(hits, starts, fit, maps, k, m);
      WindowsStep(maps, orders, fits, outRows, m, order, rows);
      outRows := outRows + rows;
      maps := maps + [m];
      orders := orders + [order];
      fits := fits + ValuesInOrder(m, order);
    }
    assert starts[..|starts|] == starts;
  }

  /** One more window's map, its order and its rows extend the flattened fits and the
      rows emitted so far. */
  lemma WindowsStep(maps: seq<BestMap>, orders: seq<seq<TopKey>>, fits: seq<BestFit>, outRows: seq<SavedHit>,
                    m: BestMap, order: seq<TopKey>, rows: seq<SavedHit>)
    requires MapsEnumerated(maps, orders) && MapsEmittable(maps)
    requires fits == Flatten(maps, orders) && outRows == EmittedRows(fits, 0)
    requires (forall key :: key in m ==> Emittable(m[key])) && Enumerates(order, m)
    requires AllEmittable(ValuesInOrder(m, order)) && rows == EmittedRows(ValuesInOrder(m, order), |fits|)
    ensures MapsEnumerated(maps + [m], orders + [order]) && MapsEmittable(maps + [m])
    ensures fits + ValuesInOrder(m, order) == Flatten(maps + [m], orders + [order])
    ensures outRows + rows == EmittedRows(fits + ValuesInOrder(m, order), 0)
  {
    FlattenSnoc(maps, orders, m, order);
    EmittedRowsAppend(fits, ValuesInOrder(m, order), 0);
  }

  /** The window starts and the windows' fits of a table of hits. */
  method TrackWindows(hits: seq<Hit>, fit: Fitter)
    returns (outRows: seq<SavedHit>, ghost starts: seq<int>, ghost maps: seq<BestMap>,
             ghost orders: seq<seq<TopKey>>, ghost fits: seq<BestFit>)
    ensures IsWindowStarts(starts, MinTrigger(hits), MaxTrigger(hits))
    ensures AreKept(hits, starts, fit, maps)
    ensures MapsEnumerated(maps, orders) && MapsEmittable(maps)
    ensures fits == Flatten(maps, orders) && outRows == EmittedRows(fits, 0)
  {
    var geo := BuildGeometry();
    var tmin, tmax := TriggerRange(hits);
    var ws := WindowStarts(tmin, tmax);
    starts := ws;
    outRows, maps, orders, fits := ProcessWindows(hits, ws, geo, fit);
  }

  // ---------------------------------------------------------------------------
  // The whole program
  // ---------------------------------------------------------------------------

  /** What the deduplication of the emitted rows keeps. */
  ghost predicate DedupOf(rows: seq<SavedHit>, keptIds: seq<int>, out: seq<SavedHit>) {
    && out == Concat(TrackBundles(rows, keptIds))
    && DistinctlyKeyed(rows, keptIds)
    && CoversInputs(rows, keptIds)
    && KeepsLeast(rows, keptIds)
  }

  /** main up to the output file: the early exits (with the corrected checks of the
      required columns and of an empty table), then tracking and deduplication. */
  method Run(lines: seq<string>, num: Numerics)
    returns (r: Result<seq<SavedHit>, Failure>, ghost cols: seq<string>, ghost starts: seq<int>,
             ghost maps: seq<BestMap>, ghost orders: seq<seq<TopKey>>, ghost fits: seq<BestFit>,
             ghost keptIds: seq<int>)
    ensures lines == [] ==> r == Failure(EmptyCsv)
    ensures lines != [] ==> IsHeaderOf(cols, lines[0])
    ensures lines != [] && !HasRequiredColumns(ResolveColumns(cols)) ==> r == Failure(MissingColumns)
    ensures lines != [] && HasRequiredColumns(ResolveColumns(cols)) ==>
              var hits := ParseRows(lines[1..], |cols|, ResolveColumns(cols), num);
              && (hits == [] ==> r == Failure(NoHits))
              && (hits != [] ==>
                    && r.Success?
                    && IsWindowStarts(starts, MinTrigger(hits), MaxTrigger(hits))
                    && AreKept(hits, starts, num.fitTangentLine, maps)
                    && MapsEnumerated(maps, orders) && MapsEmittable(maps)
                    && fits == Flatten(maps, orders)
                    && DedupOf(EmittedRows(fits, 0), keptIds, r.value))
  {
    starts, maps, orders, fits, keptIds := [], [], [], [], [];
    var read;
    read, cols := ReadHits(lines, num);
    if read.Failure? {
      return Failure(read.error), cols, starts, maps, orders, fits, keptIds;
    }
    var hits := read.value;
    if hits == [] {
      return Failure(NoHits), cols, starts, maps, orders, fits, keptIds;
    }
    var outRows;
    outRows, starts, maps, orders, fits := TrackWindows(hits, num.fitTangentLine);
    var filtered;
    filtered, keptIds := GlobalDedup(outRows);
    r := Success(filtered);
  }

  // ---------------------------------------------------------------------------
  // What the windows yield
  // ---------------------------------------------------------------------------

  /** Every loaded hit lies in exactly one window. */
  lemma HitInExactlyOneWindow(hits: seq<Hit>, starts: seq<int>, i: int)
    requires IsWindowStarts(starts, MinTrigger(hits), MaxTrigger(hits)) && 0 <= i < |hits|
    ensures exists k :: 0 <= k < |starts| && starts[k] <= hits[i].triggerLedge < starts[k] + WindowSize
    ensures forall k1, k2 ::
              (0 <= k1 < |starts| && 0 <= k2 < |starts|
               && starts[k1] <= hits[i].triggerLedge < starts[k1] + WindowSize
               && starts[k2] <= hits[i].triggerLedge < starts[k2] + WindowSize) ==> k1 == k2
  {
    ExactlyOneWindow(starts, MinTrigger(hits), MaxTrigger(hits), hits[i].triggerLedge);
  }

  /** A fit of window w0: a good fit for its A_top key among the window's hits. */
  ghost predicate FitOfWindow(hits: seq<Hit>, w0: int, bf: BestFit) {
    |bf.tubes| == 6 && GoodFit(bf, KeyOf(bf.tubes[2]), InWindow(hits, w0, w0 + WindowSize))
  }

  /** Each entry of maps[k] is a good fit of window k under its own A_top key, with A_top
      inside the window. */
  ghost predicate GoodMaps(hits: seq<Hit>, starts: seq<int>, maps: seq<BestMap>) {
    && |maps| <= |starts|
    && forall k, key :: 0 <= k < |maps| && key in maps[k] ==>
         && FitOfWindow(hits, starts[k], maps[k][key])
         && KeyOf(maps[k][key].tubes[2]) == key
         && starts[k] <= maps[k][key].tubes[2].triggerLedge < starts[k] + WindowSize
  }

  /** An entry of a window's map is a good fit of the window under its A_top key. */
  lemma WindowKeptGood(hits: seq<Hit>, w0: int, fit: Fitter, key: TopKey)
    requires key in WindowKept(hits, w0, fit)
    ensures FitOfWindow(hits, w0, WindowKept(hits, w0, fit)[key])
    ensures KeyOf(WindowKept(hits, w0, fit)[key].tubes[2]) == key
    ensures w0 <= WindowKept(hits, w0, fit)[key].tubes[2].triggerLedge < w0 + WindowSize
  {
    var wh := InWindow(hits, w0, w0 + WindowSize);
    WindowBestIsGood(wh, fit);
    var bf := WindowKept(hits, w0, fit)[key];
    assert GoodFit(bf, key, wh);
    assert bf.tubes[2] in wh;
  }

  /** The maps the windows keep are good maps. */
  lemma {:induction false} WindowMapsGood(hits: seq<Hit>, starts: seq<int>, fit: Fitter, maps: seq<BestMap>)
    requires AreKept(hits, starts, fit, maps)
    ensures GoodMaps(hits, starts, maps) && MapsEmittable(maps)
    decreases |starts|
  {
    if starts != [] {
      var n := |starts| - 1;
      WindowMapsGood(hits, starts[..n], fit, maps[..n]);
      WindowKeptEmittable(hits, starts[n], fit);
      forall k, key | 0 <= k < |maps| && key in maps[k]
        ensures && FitOfWindow(hits, starts[k], maps[k][key])
                && KeyOf(maps[k][key].tubes[2]) == key
                && starts[k] <= maps[k][key].tubes[2].triggerLedge < starts[k] + WindowSize
                && Emittable(maps[k][key])
      {
        if k < n {
          assert maps[k] == maps[..n][k] && starts[k] == starts[..n][k];
        } else {
          WindowKeptGood(hits, starts[n], fit, key);
        }
      }
    }
  }

  /** The j-th fit is a good fit of window k, and its A_top hit lies in that window. */
  lemma {:induction false} FitInSomeWindow(hits: seq<Hit>, starts: seq<int>, maps: seq<BestMap>,
                                           orders: seq<seq<TopKey>>, j: int) returns (k: int)
    requires GoodMaps(hits, starts, maps) && MapsEnumerated(maps, orders) && MapsEmittable(maps)
    requires 0 <= j < |Flatten(maps, orders)|
    ensures 0 <= k < |maps| && FitOfWindow(hits, starts[k], Flatten(maps, orders)[j])
    ensures starts[k] <= Flatten(maps, orders)[j].tubes[2].triggerLedge < starts[k] + WindowSize
    decreases |maps|
  {
    FlattenAt(maps, orders, j);
    var n := |maps| - 1;
    var prev := Flatten(maps[..n], orders[..n]);
    if j < |prev| {
      assert GoodMaps(hits, starts, maps[..n]);
      k := FitInSomeWindow(hits, starts, maps[..n], orders[..n], j);
    } else {
      k := n;
      assert orders[n][j - |prev|] in maps[n];
    }
  }

  /** bf is a good fit of one of the windows. */
  ghost predicate FitOfSomeWindow(hits: seq<Hit>, starts: seq<int>, bf: BestFit) {
    exists k :: 0 <= k < |starts| && FitOfWindow(hits, starts[k], bf)
  }

  /** Every fit of the run is a good fit of one of the windows. */
  lemma AllFitsInWindows(hits: seq<Hit>, starts: seq<int>, fit: Fitter, maps: seq<BestMap>, orders: seq<seq<TopKey>>)
    requires AreKept(hits, starts, fit, maps) && MapsEnumerated(maps, orders)
    ensures MapsEmittable(maps)
    ensures forall j :: 0 <= j < |Flatten(maps, orders)| ==> FitOfSomeWindow(hits, starts, Flatten(maps, orders)[j])
  {
    WindowMapsGood(hits, starts, fit, maps);
    forall j | 0 <= j < |Flatten(maps, orders)| ensures FitOfSomeWindow(hits, starts, Flatten(maps, orders)[j]) {
      var k := FitInSomeWindow(hits, starts, maps, orders, j);
    }
  }

  /** Consecutive window starts lie WINDOW_SIZE apart. */
  predicate Spaced(starts: seq<int>) {
    forall k :: 0 <= k < |starts| ==> starts[k] == starts[0] + k * WindowSize
  }

  /** Fits i < j have different A_top hits: within a window the map has one entry per
      key, and a later window's hits lie above an earlier window's. */
  lemma {:induction false} FitKeysDiffer(hits: seq<Hit>, starts: seq<int>, maps: seq<BestMap>,
                                         orders: seq<seq<TopKey>>, i: int, j: int)
    requires Spaced(starts) && GoodMaps(hits, starts, maps) && MapsEnumerated(maps, orders) && MapsEmittable(maps)
    requires 0 <= i < j < |Flatten(maps, orders)|
    ensures KeyOf(Flatten(maps, orders)[i].tubes[2]) != KeyOf(Flatten(maps, orders)[j].tubes[2])
    decreases |maps|
  {
    FlattenAt(maps, orders, i);
    FlattenAt(maps, orders, j);
    var n := |maps| - 1;
    var prev := Flatten(maps[..n], orders[..n]);
    var m := |prev|;
    assert GoodMaps(hits, starts, maps[..n]);
    if j < m {
      FitKeysDiffer(hits, starts, maps[..n], orders[..n], i, j);
    } else if i < m {
      var k := FitInSomeWindow(hits, starts, maps[..n], orders[..n], i);
      assert orders[n][j - m] in maps[n];
      assert starts[k] + WindowSize <= starts[n];
    } else {
      assert orders[n][i - m] in maps[n] && orders[n][j - m] in maps[n];
    }
  }

  /** No two fits of the run share an A_top hit. */
  lemma AllFitsDistinct(hits: seq<Hit>, starts: seq<int>, fit: Fitter, maps: seq<BestMap>, orders: seq<seq<TopKey>>)
    requires IsWindowStarts(starts, MinTrigger(hits), MaxTrigger(hits))
    requires AreKept(hits, starts, fit, maps) && MapsEnumerated(maps, orders)
    ensures MapsEmittable(maps)
    ensures forall i, j :: 0 <= i < j < |Flatten(maps, orders)| ==>
              KeyOf(Flatten(maps, orders)[i].tubes[2]) != KeyOf(Flatten(maps, orders)[j].tubes[2])
  {
    WindowMapsGood(hits, starts, fit, maps);
    assert Spaced(starts);
    forall i, j | 0 <= i < j < |Flatten(maps, orders)|
      ensures KeyOf(Flatten(maps, orders)[i].tubes[2]) != KeyOf(Flatten(maps, orders)[j].tubes[2])
    {
      FitKeysDiffer(hits, starts, maps, orders, i, j);
    }
  }

  // ---------------------------------------------------------------------------
  // What the deduplication sees
  // ---------------------------------------------------------------------------

  lemma {:induction false} RowsOfAppend(a: seq<SavedHit>, b: seq<SavedHit>, id: int)
    ensures RowsOf(a + b, id) == RowsOf(a, id) + RowsOf(b, id)
    decreases |b|
  {
    if b == [] {
      assert a + b == a;
    } else {
      var n := |b| - 1;
      assert (a + b)[..|a + b| - 1] == a + b[..n];
      assert (a + b)[|a + b| - 1] == b[n];
      RowsOfAppend(a, b[..n], id);
    }
  }

  lemma {:induction false} RowsOfOneTrack(rows: seq<SavedHit>, t: int, id: int)
    requires forall i :: 0 <= i < |rows| ==> rows[i].trackId == t
    ensures RowsOf(rows, id) == if t == id then rows else []
  {
    if rows != [] {
      RowsOfOneTrack(rows[..|rows| - 1], t, id);
    }
  }

  lemma BundleRowsTrack(bf: BestFit, trackId: int)
    requires Emittable(bf)
    ensures forall i :: 0 <= i < |BundleRows(bf, trackId)| ==> BundleRows(bf, trackId)[i].trackId == trackId
  {
  }

  /** After emission, track id id0 + i is exactly the bundle of the i-th fit. */
  lemma {:induction false} EmittedTrack(fits: seq<BestFit>, id0: int, i: int)
    requires AllEmittable(fits) && 0 <= i < |fits|
    ensures RowsOf(EmittedRows(fits, id0), id0 + i) == BundleRows(fits[i], id0 + i)
  {
    var n := |fits| - 1;
    var init := fits[..n];
    assert AllEmittable(init);
    var e, a := RowsOf(EmittedRows(fits, id0), id0 + i), RowsOf(EmittedRows(init, id0), id0 + i);
    if i < n {
      assert e == a by { EmittedSplitOther(fits, id0, id0 + i); }
      assert a == BundleRows(init[i], id0 + i) by { EmittedTrack(init, id0, i); }
      assert init[i] == fits[i];
    } else {
      assert e == a + BundleRows(fits[n], id0 + i) by { EmittedSplitLast(fits, id0); }
      assert a == [] by { EmittedNoTrack(init, id0, id0 + i); }
      assert [] + BundleRows(fits[n], id0 + i) == BundleRows(fits[n], id0 + i);
    }
  }

  lemma EmittedSplitOther(fits: seq<BestFit>, id0: int, id: int)
    requires AllEmittable(fits) && fits != [] && id != id0 + |fits| - 1
    ensures AllEmittable(fits[..|fits| - 1])
    ensures RowsOf(EmittedRows(fits, id0), id) == RowsOf(EmittedRows(fits[..|fits| - 1], id0), id)
  {
    var t := id0 + |fits| - 1;
    EmittedRowsLast(fits, id0);
    BundleRowsTrack(fits[|fits| - 1], t);
    RowsOfAppendTrack(EmittedRows(fits[..|fits| - 1], id0), BundleRows(fits[|fits| - 1], t), t, id);
    assert RowsOf(EmittedRows(fits[..|fits| - 1], id0), id) + [] == RowsOf(EmittedRows(fits[..|fits| - 1], id0), id);
  }

  lemma EmittedSplitLast(fits: seq<BestFit>, id0: int)
    requires AllEmittable(fits) && fits != []
    ensures AllEmittable(fits[..|fits| - 1])
    ensures RowsOf(EmittedRows(fits, id0), id0 + |fits| - 1)
            == RowsOf(EmittedRows(fits[..|fits| - 1], id0), id0 + |fits| - 1) + BundleRows(fits[|fits| - 1], id0 + |fits| - 1)
  {
    EmittedRowsLast(fits, id0);
    var t := id0 + |fits| - 1;
    var e, a, b := EmittedRows(fits, id0), EmittedRows(fits[..|fits| - 1], id0), BundleRows(fits[|fits| - 1], t);
    assert e == a + b;
    assert RowsOf(a + b, t) == RowsOf(a, t) + b by {
      RowsOfAppendBundle(a, fits[|fits| - 1], t);
    }
  }

  /** No track id outside id0 .. id0 + |fits| - 1 occurs among the emitted rows. */
  lemma {:induction false} EmittedNoTrack(fits: seq<BestFit>, id0: int, id: int)
    requires AllEmittable(fits) && !(id0 <= id < id0 + |fits|)
    ensures RowsOf(EmittedRows(fits, id0), id) == []
  {
    if fits != [] {
      var n := |fits| - 1;
      var init := fits[..n];
      var a, b := EmittedRows(init, id0), BundleRows(fits[n], id0 + n);
      assert EmittedRows(fits, id0) == a + b;
      EmittedNoTrack(init, id0, id);
      RowsOfAppend(a, b, id);
      BundleRowsTrack(fits[n], id0 + n);
      RowsOfOneTrack(b, id0 + n, id);
    }
  }

  /** In a bundle whose tube 5 lies strictly above the others, the first highest row is
      row 5: the global deduplication keys bundles on B_top. */
  lemma DedupKeyIsBTop(bf: BestFit, trackId: int)
    requires Emittable(bf) && forall j :: 0 <= j < 5 ==> bf.ys[j] < bf.ys[5]
    ensures TopIndex(BundleRows(bf, trackId)) == 5
    ensures BundleKey(BundleRows(bf, trackId)) == KeyOf(bf.tubes[5])
  {
    BundleRowsShape(bf, trackId);
  }

  lemma EmittedRowsLast(fits: seq<BestFit>, id0: int)
    requires AllEmittable(fits) && fits != []
    ensures AllEmittable(fits[..|fits| - 1])
    ensures EmittedRows(fits, id0) == EmittedRows(fits[..|fits| - 1], id0) + BundleRows(fits[|fits| - 1], id0 + |fits| - 1)
  { }

  lemma RowsOfAppendTrack(a: seq<SavedHit>, b: seq<SavedHit>, t: int, id: int)
    requires forall i :: 0 <= i < |b| ==> b[i].trackId == t
    ensures RowsOf(a + b, id) == RowsOf(a, id) + (if id == t then b else [])
  {
    RowsOfAppend(a, b, id);
    RowsOfOneTrack(b, t, id);
  }

  lemma RowsOfAppendBundle(a: seq<SavedHit>, bf: BestFit, t: int)
    requires Emittable(bf)
    ensures RowsOf(a + BundleRows(bf, t), t) == RowsOf(a, t) + BundleRows(bf, t)
  {
    BundleRowsTrack(bf, t);
    RowsOfAppendTrack(a, BundleRows(bf, t), t, t);
  }
}
