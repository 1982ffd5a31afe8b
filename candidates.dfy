/** Candidate generation and per-window selection (muon_tracker_fixed.cpp, lines 262-367):
    for two layer/sign conventions, nine module pairs and eight base channels, the six
    tubes' hits are combined in a Cartesian product; each candidate is fitted and scored,
    and the best candidate per top-layer hit is kept. */
module Candidates {
  import opened Wrappers
  import opened Hits
  import opened Geometry
  import opened Windowing

  /** CHI2NDF_CUT: candidates scoring above it are rejected. */
  const Chi2NdfCut: real := 50.0

  /** Degrees of freedom: six measurements less three line parameters. */
  const Ndf: real := 3.0

  // ---------------------------------------------------------------------------
  // Conventions and combinations (lines 275-302)
  // ---------------------------------------------------------------------------

  /** The channel offsets of the bottom, middle and top slot in each iteration. */
  function LayerOffsets(iteration: int): seq<int> {
    if iteration == 1 then [0, 8, 16] else [0, 7, 16]
  }

  /** The signs given to the drift radii of the six tubes in each iteration. */
  function Signs(iteration: int): seq<real> {
    if iteration == 1 then [1.0, -1.0, 1.0, 1.0, -1.0, 1.0] else [-1.0, 1.0, -1.0, -1.0, 1.0, -1.0]
  }

  /** The second convention flips every sign of the first. */
  lemma SecondSignsNegateFirst()
    ensures |Signs(1)| == |Signs(2)| == 6
    ensures forall i :: 0 <= i < 6 ==> Signs(2)[i] == -Signs(1)[i]
  {
  }

  /** One (iteration, module pair, base channel) combination. */
  datatype Combo = Combo(iteration: int, t0: int, t1: int, base: int)

  predicate ValidCombo(c: Combo) {
    && 1 <= c.iteration <= 2
    && 0 <= c.t0 < |ModuleOffsets| && 0 <= c.t1 < |ModuleOffsets| && c.t0 != c.t1
    && 0 <= c.base < 8
  }

  /** A combination of a stacked pair: an even module and the odd module above it. */
  predicate PairCombo(c: Combo) {
    ValidCombo(c) && c.t0 % 2 == 0 && c.t1 == c.t0 + 1
  }

  /** The combination the loops reach at (iteration, pair index p, base). */
  function ComboAt(iteration: int, p: int, base: int): (c: Combo)
    requires 1 <= iteration <= 2 && 0 <= p < |ModulePairs| && 0 <= base < 8
    ensures ValidCombo(c)
  {
    Combo(iteration, ModulePairs[p].0, ModulePairs[p].1, base)
  }

  /** The channel of slot 0 (bottom), 1 (middle) or 2 (top); module B uses module A's. */
  function SlotChannel(c: Combo, slot: int): int
    requires 0 <= slot < 3
  {
    c.base + LayerOffsets(c.iteration)[slot]
  }

  /** Every slot channel is a channel of the module. */
  lemma SlotChannelsInModule(c: Combo, slot: int)
    requires ValidCombo(c) && 0 <= slot < 3
    ensures 0 <= SlotChannel(c, slot) < ChannelsPerModule
  {
  }

  /** The bottom and top slots lie in the bottom and top rows; the middle slot lies in the
      middle row except in iteration 2 at base 0, whose "middle" channel 7 is the last
      tube of the bottom row. */
  lemma SlotRows(c: Combo)
    requires ValidCombo(c)
    ensures Row(SlotChannel(c, 0)) == 0 && Row(SlotChannel(c, 2)) == 2
    ensures Row(SlotChannel(c, 1)) == if c.iteration == 2 && c.base == 0 then 0 else 1
  {
  }

  /** The six slot lists in the order of the nested loops of lines 315-320:
      A_top, B_top, A_bot, A_med, B_bot, B_med. */
  function SlotLists(wh: seq<Hit>, c: Combo): (ls: seq<seq<Hit>>)
    ensures |ls| == 6
  {
    [Occupants(wh, c.t0, SlotChannel(c, 2)), Occupants(wh, c.t1, SlotChannel(c, 2)),
     Occupants(wh, c.t0, SlotChannel(c, 0)), Occupants(wh, c.t0, SlotChannel(c, 1)),
     Occupants(wh, c.t1, SlotChannel(c, 0)), Occupants(wh, c.t1, SlotChannel(c, 1))]
  }

  // ---------------------------------------------------------------------------
  // Candidates and the Cartesian product (lines 314-321)
  // ---------------------------------------------------------------------------

  /** A candidate: its combination and its six hits, named by tube. */
  datatype Cand = Cand(combo: Combo, aBot: Hit, aMed: Hit, aTop: Hit, bBot: Hit, bMed: Hit, bTop: Hit)
  {
    /** tube_ptrs: A_bot, A_med, A_top, B_bot, B_med, B_top. */
    function Tubes(): (r: seq<Hit>)
      ensures |r| == 6
    {
      [aBot, aMed, aTop, bBot, bMed, bTop]
    }

    /** The hits in the order of the nested loops. */
    function LoopOrder(): (r: seq<Hit>)
      ensures |r| == 6
    {
      [aTop, bTop, aBot, aMed, bBot, bMed]
    }
  }

  /** The candidate of a loop-order sextuple. */
  function ToCand(c: Combo, p: seq<Hit>): (r: Cand)
    requires |p| == 6
    ensures r.LoopOrder() == p && r.combo == c
  {
    Cand(c, p[2], p[3], p[0], p[4], p[5], p[1])
  }

  /** The candidates of all sextuples extending pre, the later positions drawn from the
      lists ls in loop order, the last position varying fastest. */
  function Product(c: Combo, pre: seq<Hit>, ls: seq<seq<Hit>>): seq<Cand>
    requires |pre| <= |ls| == 6
    decreases 6 - |pre|, 1, 0
  {
    if |pre| == 6 then [ToCand(c, pre)] else ProductOver(c, pre, ls[|pre|], ls)
  }

  /** The candidates extending pre + [x] for each x of l in turn. */
  function ProductOver(c: Combo, pre: seq<Hit>, l: seq<Hit>, ls: seq<seq<Hit>>): seq<Cand>
    requires |pre| < |ls| == 6
    decreases 6 - |pre|, 0, |l|
  {
    if l == [] then [] else ProductOver(c, pre, l[..|l| - 1], ls) + Product(c, pre + [l[|l| - 1]], ls)
  }

  /** The product of the list lengths from position k on. */
  function CountFrom(ls: seq<seq<Hit>>, k: nat): nat
    requires k <= |ls|
    decreases |ls| - k
  {
    if k == |ls| then 1 else |ls[k]| * CountFrom(ls, k + 1)
  }

  lemma {:induction false} ProductCount(c: Combo, pre: seq<Hit>, ls: seq<seq<Hit>>)
    requires |pre| <= |ls| == 6
    ensures |Product(c, pre, ls)| == CountFrom(ls, |pre|)
    decreases 6 - |pre|, 1, 0
  {
    if |pre| < 6 {
      ProductOverCount(c, pre, ls[|pre|], ls);
    }
  }

  lemma {:induction false} ProductOverCount(c: Combo, pre: seq<Hit>, l: seq<Hit>, ls: seq<seq<Hit>>)
    requires |pre| < |ls| == 6
    ensures |ProductOver(c, pre, l, ls)| == |l| * CountFrom(ls, |pre| + 1)
    decreases 6 - |pre|, 0, |l|
  {
    if l != [] {
      ProductOverCount(c, pre, l[..|l| - 1], ls);
      ProductCount(c, pre + [l[|l| - 1]], ls);
      assert |l[..|l| - 1]| * CountFrom(ls, |pre| + 1) + CountFrom(ls, |pre| + 1)
          == |l| * CountFrom(ls, |pre| + 1);
    }
  }

  /** Every candidate of the product extends pre, takes its k-th loop-order hit from the
      k-th list, and belongs to the combination. */
  lemma {:induction false} ProductMembers(c: Combo, pre: seq<Hit>, ls: seq<seq<Hit>>)
    requires |pre| <= |ls| == 6
    ensures forall d :: d in Product(c, pre, ls) ==>
              && d.combo == c
              && (forall k :: 0 <= k < |pre| ==> d.LoopOrder()[k] == pre[k])
              && (forall k :: |pre| <= k < 6 ==> d.LoopOrder()[k] in ls[k])
    decreases 6 - |pre|, 1, 0
  {
    if |pre| < 6 {
      ProductOverMembers(c, pre, ls[|pre|], ls);
    }
  }

  lemma {:induction false} ProductOverMembers(c: Combo, pre: seq<Hit>, l: seq<Hit>, ls: seq<seq<Hit>>)
    requires |pre| < |ls| == 6
    ensures forall d :: d in ProductOver(c, pre, l, ls) ==>
              && d.combo == c
              && (forall k :: 0 <= k < |pre| ==> d.LoopOrder()[k] == pre[k])
              && d.LoopOrder()[|pre|] in l
              && (forall k :: |pre| < k < 6 ==> d.LoopOrder()[k] in ls[k])
    decreases 6 - |pre|, 0, |l|
  {
    if l != [] {
      var init, x := l[..|l| - 1], l[|l| - 1];
      ProductOverMembers(c, pre, init, ls);
      ProductMembers(c, pre + [x], ls);
      forall d | d in ProductOver(c, pre, l, ls)
        ensures d.LoopOrder()[|pre|] in l
      {
        if d in ProductOver(c, pre, init, ls) {
          assert d.LoopOrder()[|pre|] in init;
        } else {
          assert d in Product(c, pre + [x], ls);
          assert d.LoopOrder()[|pre|] == (pre + [x])[|pre|];
        }
      }
    }
  }

  /** The candidates of one combination: none when a slot has no hit, otherwise the
      whole product (lines 289, 301-302, 315-321). */
  function ComboCands(wh: seq<Hit>, c: Combo): seq<Cand> {
    var ls := SlotLists(wh, c);
    if forall k :: 0 <= k < 6 ==> ls[k] != [] then Product(c, [], ls) else []
  }

  /** A candidate sits on its combination's slots: A hits on module t0, B hits on module t1,
      bottom/middle/top hits on the slot channels. */
  predicate OnSlots(d: Cand) {
    && d.aBot.tdcId == d.combo.t0 && d.aMed.tdcId == d.combo.t0 && d.aTop.tdcId == d.combo.t0
    && d.bBot.tdcId == d.combo.t1 && d.bMed.tdcId == d.combo.t1 && d.bTop.tdcId == d.combo.t1
    && d.aBot.chnlId == SlotChannel(d.combo, 0) && d.bBot.chnlId == SlotChannel(d.combo, 0)
    && d.aMed.chnlId == SlotChannel(d.combo, 1) && d.bMed.chnlId == SlotChannel(d.combo, 1)
    && d.aTop.chnlId == SlotChannel(d.combo, 2) && d.bTop.chnlId == SlotChannel(d.combo, 2)
  }

  lemma OccupantMember(wh: seq<Hit>, t: int, ch: int, h: Hit)
    requires h in Occupants(wh, t, ch)
    ensures h.tdcId == t && h.chnlId == ch && h in wh
  {
    var k :| 0 <= k < |Occupants(wh, t, ch)| && Occupants(wh, t, ch)[k] == h;
  }

  lemma ComboAtIsPair(iteration: int, p: int, base: int)
    requires 1 <= iteration <= 2 && 0 <= p < |ModulePairs| && 0 <= base < 8
    ensures PairCombo(ComboAt(iteration, p, base))
  {
    PairIsStacked(p);
  }

  /** A combination with an empty slot yields nothing; otherwise it yields exactly the
      product of the six slot counts. */
  lemma ComboCandsCount(wh: seq<Hit>, c: Combo)
    ensures var ls := SlotLists(wh, c);
            && ((exists k :: 0 <= k < 6 && ls[k] == []) ==> ComboCands(wh, c) == [])
            && ((forall k :: 0 <= k < 6 ==> ls[k] != []) ==>
                  |ComboCands(wh, c)| == |ls[0]| * (|ls[1]| * (|ls[2]| * (|ls[3]| * (|ls[4]| * |ls[5]|)))))
  {
    var ls := SlotLists(wh, c);
    ProductCount(c, [], ls);
    assert CountFrom(ls, 6) == 1;
    assert CountFrom(ls, 5) == |ls[5]|;
    assert CountFrom(ls, 4) == |ls[4]| * |ls[5]|;
    assert CountFrom(ls, 3) == |ls[3]| * (|ls[4]| * |ls[5]|);
    assert CountFrom(ls, 2) == |ls[2]| * (|ls[3]| * (|ls[4]| * |ls[5]|));
    assert CountFrom(ls, 1) == |ls[1]| * (|ls[2]| * (|ls[3]| * (|ls[4]| * |ls[5]|)));
  }

  /** Every candidate of a combination sits on its slots, its A_bot, A_med, A_top, B_bot,
      B_med and B_top hits drawn from the matching slot lists. */
  lemma ComboCandsOnSlots(wh: seq<Hit>, c: Combo)
    ensures forall d :: d in ComboCands(wh, c) ==>
              && d.combo == c && OnSlots(d)
              && d.aBot in Occupants(wh, c.t0, SlotChannel(c, 0))
              && d.aMed in Occupants(wh, c.t0, SlotChannel(c, 1))
              && d.aTop in Occupants(wh, c.t0, SlotChannel(c, 2))
              && d.bBot in Occupants(wh, c.t1, SlotChannel(c, 0))
              && d.bMed in Occupants(wh, c.t1, SlotChannel(c, 1))
              && d.bTop in Occupants(wh, c.t1, SlotChannel(c, 2))
    ensures forall d :: d in ComboCands(wh, c) ==> forall i :: 0 <= i < 6 ==> d.Tubes()[i] in wh
  {
    var ls := SlotLists(wh, c);
    ProductMembers(c, [], ls);
    forall d | d in ComboCands(wh, c)
      ensures d.combo == c && OnSlots(d)
      ensures d.aTop in ls[0] && d.bTop in ls[1] && d.aBot in ls[2]
      ensures d.aMed in ls[3] && d.bBot in ls[4] && d.bMed in ls[5]
      ensures forall i :: 0 <= i < 6 ==> d.Tubes()[i] in wh
    {
      assert d in Product(c, [], ls);
      var lo := d.LoopOrder();
      assert lo[0] in ls[0] && lo[1] in ls[1] && lo[2] in ls[2];
      assert lo[3] in ls[3] && lo[4] in ls[4] && lo[5] in ls[5];
      OccupantMember(wh, c.t0, SlotChannel(c, 2), d.aTop);
      OccupantMember(wh, c.t1, SlotChannel(c, 2), d.bTop);
      OccupantMember(wh, c.t0, SlotChannel(c, 0), d.aBot);
      OccupantMember(wh, c.t0, SlotChannel(c, 1), d.aMed);
      OccupantMember(wh, c.t1, SlotChannel(c, 0), d.bBot);
      OccupantMember(wh, c.t1, SlotChannel(c, 1), d.bMed);
    }
  }

  // ---------------------------------------------------------------------------
  // Scoring a candidate (lines 322-345)
  // ---------------------------------------------------------------------------

  function Abs(x: real): real {
    if x < 0.0 then -x else x
  }

  /** distance_point_line (lines 224-226). */
  function DistancePointLine(l: Line, x0: real, y0: real): (d: real)
    ensures d >= 0.0
    ensures d == l.a * x0 + l.b * y0 + l.c || d == -(l.a * x0 + l.b * y0 + l.c)
  {
    Abs(l.a * x0 + l.b * y0 + l.c)
  }

  /** The residual of a tube: its distance to the line less the unsigned radius. */
  function Residual(l: Line, x: real, y: real, r: real): real {
    DistancePointLine(l, x, y) - Abs(r)
  }

  function Square(x: real): (r: real)
    ensures r >= 0.0
  {
    x * x
  }

  function SumSquares(s: seq<real>): (r: real)
    ensures r >= 0.0
    ensures s == [] ==> r == 0.0
  {
    if s == [] then 0.0 else SumSquares(s[..|s| - 1]) + Square(s[|s| - 1])
  }

  /** The module whose table line 327 reads for hit h. */
  function ModuleFor(c: Combo, h: Hit): int {
    if h.tdcId == c.t0 then c.t0 else c.t1
  }

  /** Every tube of the candidate has a registered position. */
  predicate KnownAddresses(d: Cand) {
    forall i :: 0 <= i < 6 ==> PositionOf(ModuleFor(d.combo, d.Tubes()[i]), d.Tubes()[i].chnlId).Some?
  }

  function TubePosition(d: Cand, i: int): Point
    requires KnownAddresses(d) && 0 <= i < 6
  {
    PositionOf(ModuleFor(d.combo, d.Tubes()[i]), d.Tubes()[i].chnlId).value
  }

  /** xs and ys of lines 323-331. */
  function Xs(d: Cand): (r: seq<real>)
    requires KnownAddresses(d)
    ensures |r| == 6 && forall i :: 0 <= i < 6 ==> r[i] == TubePosition(d, i).0
  {
    seq(6, i requires 0 <= i < 6 => TubePosition(d, i).0)
  }

  function Ys(d: Cand): (r: seq<real>)
    requires KnownAddresses(d)
    ensures |r| == 6 && forall i :: 0 <= i < 6 ==> r[i] == TubePosition(d, i).1
  {
    seq(6, i requires 0 <= i < 6 => TubePosition(d, i).1)
  }

  /** rs of line 330: each radius carries the sign of its tube in the convention. */
  function SignedRadii(d: Cand): (r: seq<real>)
    ensures |r| == 6
    ensures forall i :: 0 <= i < 6 ==> r[i] == d.Tubes()[i].driftRadius * Signs(d.combo.iteration)[i]
    ensures forall i :: 0 <= i < 6 ==> Abs(r[i]) == Abs(d.Tubes()[i].driftRadius)
  {
    var signs := Signs(d.combo.iteration);
    seq(6, i requires 0 <= i < 6 => d.Tubes()[i].driftRadius * signs[i])
  }

  /** The residuals of lines 336-340. */
  function Residuals(l: Line, xs: seq<real>, ys: seq<real>, rs: seq<real>): (r: seq<real>)
    requires |xs| == |ys| == |rs|
    ensures |r| == |xs| && forall i :: 0 <= i < |xs| ==> r[i] == Residual(l, xs[i], ys[i], rs[i])
  {
    seq(|xs|, i requires 0 <= i < |xs| => Residual(l, xs[i], ys[i], rs[i]))
  }

  /** The fit state kept for a candidate (BestFit, lines 263-270). */
  datatype BestFit = BestFit(tubes: seq<Hit>, xs: seq<real>, ys: seq<real>, residuals: seq<real>, line: Line, chi2ndf: real)

  /** The score of a candidate: positions from the geometry table, radii signed by the
      convention, the fitted line, the six residuals and chi2/ndf; None when a tube has
      no position, the fit is degenerate, or chi2/ndf exceeds the cut. */
  function Evaluate(d: Cand, fit: (seq<real>, seq<real>, seq<real>) -> Option<Line>): (r: Option<BestFit>)
    ensures r.Some? ==> r.value.chi2ndf <= Chi2NdfCut && r.value.chi2ndf >= 0.0
    ensures r.Some? ==> r.value.tubes == d.Tubes() && |r.value.xs| == |r.value.ys| == |r.value.residuals| == 6
  {
    if !KnownAddresses(d) then None
    else
      var xs, ys, rs := Xs(d), Ys(d), SignedRadii(d);
      match fit(xs, ys, rs)
      case None => None
      case Some(l) =>
        var res := Residuals(l, xs, ys, rs);
        var chi2ndf := SumSquares(res) / Ndf;
        if chi2ndf > Chi2NdfCut then None else Some(BestFit(d.Tubes(), xs, ys, res, l, chi2ndf))
  }

  /** A candidate is accepted exactly when all six tubes have positions, the fit succeeds
      and chi2/ndf is within the cut; the kept state holds the tube positions, the fitted
      line, and residuals |a x + b y + c| - |r| for each tube. */
  lemma EvaluateMeaning(d: Cand, fit: (seq<real>, seq<real>, seq<real>) -> Option<Line>)
    ensures var r := Evaluate(d, fit);
            && (r.Some? <==>
                  && KnownAddresses(d)
                  && fit(Xs(d), Ys(d), SignedRadii(d)).Some?
                  && SumSquares(Residuals(fit(Xs(d), Ys(d), SignedRadii(d)).value, Xs(d), Ys(d), SignedRadii(d))) / Ndf <= Chi2NdfCut)
            && (r.Some? ==> r.value.line == fit(Xs(d), Ys(d), SignedRadii(d)).value)
            && (r.Some? ==> forall i :: 0 <= i < 6 ==> (r.value.xs[i], r.value.ys[i]) == TubePosition(d, i))
            && (r.Some? ==> forall i :: 0 <= i < 6 ==>
                  r.value.residuals[i] == DistancePointLine(r.value.line, r.value.xs[i], r.value.ys[i])
                                          - Abs(d.Tubes()[i].driftRadius))
  {
  }

  /** The deduplication key of a candidate: that of its A_top hit (lines 348-349). */
  function CandKey(d: Cand): TopKey {
    KeyOf(d.aTop)
  }

  /** The coordinate loop of lines 323-331. */
  method TubeCoordinates(d: Cand, geoA: seq<Point>, geoB: seq<Point>) returns (xs: seq<real>, ys: seq<real>, rs: seq<real>)
    requires ValidCombo(d.combo)
    requires |geoA| == ChannelsPerModule && |geoB| == ChannelsPerModule
    requires forall ch :: 0 <= ch < ChannelsPerModule ==>
               geoA[ch] == GeoEntry(d.combo.t0, ch) && geoB[ch] == GeoEntry(d.combo.t1, ch)
    requires forall i :: 0 <= i < 6 ==> 0 <= d.Tubes()[i].chnlId < ChannelsPerModule
    ensures KnownAddresses(d) && xs == Xs(d) && ys == Ys(d) && rs == SignedRadii(d)
  {
    var tubes := d.Tubes();
    var signs := Signs(d.combo.iteration);
    assert KnownAddresses(d);
    xs, ys, rs := [], [], [];
    for i := 0 to 6
      invariant |xs| == i && |ys| == i && |rs| == i
      invariant forall k :: 0 <= k < i ==> xs[k] == Xs(d)[k] && ys[k] == Ys(d)[k] && rs[k] == SignedRadii(d)[k]
    {
      var ph := tubes[i];
      var p := if ph.tdcId == d.combo.t0 then geoA[ph.chnlId] else geoB[ph.chnlId];
      assert p == TubePosition(d, i);
      assert ph.driftRadius * signs[i] == SignedRadii(d)[i];
      xs := xs + [p.0];
      ys := ys + [p.1];
      rs := rs + [ph.driftRadius * signs[i]];
    }
  }

  /** The residual loop of lines 336-344. */
  method ScoreLine(l: Line, xs: seq<real>, ys: seq<real>, rs: seq<real>) returns (residuals: seq<real>, chi2: real)
    requires |xs| == |ys| == |rs|
    ensures residuals == Residuals(l, xs, ys, rs) && chi2 == SumSquares(residuals)
  {
    residuals := [];
    chi2 := 0.0;
    for i := 0 to |xs|
      invariant |residuals| == i
      invariant forall k :: 0 <= k < i ==> residuals[k] == Residual(l, xs[k], ys[k], rs[k])
      invariant chi2 == SumSquares(residuals)
    {
      var dist := DistancePointLine(l, xs[i], ys[i]);
      var res := dist - Abs(rs[i]);
      assert (residuals + [res])[..i] == residuals;
      residuals := residuals + [res];
      chi2 := chi2 + Square(res);
    }
  }

  /** Lines 322-345 for one candidate. */
  method EvaluateCandidate(d: Cand, geoA: seq<Point>, geoB: seq<Point>,
                           fit: (seq<real>, seq<real>, seq<real>) -> Option<Line>) returns (r: Option<BestFit>)
    requires ValidCombo(d.combo)
    requires |geoA| == ChannelsPerModule && |geoB| == ChannelsPerModule
    requires forall ch :: 0 <= ch < ChannelsPerModule ==>
               geoA[ch] == GeoEntry(d.combo.t0, ch) && geoB[ch] == GeoEntry(d.combo.t1, ch)
    requires forall i :: 0 <= i < 6 ==> 0 <= d.Tubes()[i].chnlId < ChannelsPerModule
    ensures r == Evaluate(d, fit)
  {
    var xs, ys, rs := TubeCoordinates(d, geoA, geoB);
    var fitted := fit(xs, ys, rs);
    if fitted.None? {
      return None;
    }
    var residuals, chi2 := ScoreLine(fitted.value, xs, ys, rs);
    var chi2ndf := chi2 / Ndf;
    if chi2ndf > Chi2NdfCut {
      return None;
    }
    r := Some(BestFit(d.Tubes(), xs, ys, residuals, fitted.value, chi2ndf));
  }

  // ---------------------------------------------------------------------------
  // The per-window best map (lines 271, 347-358)
  // ---------------------------------------------------------------------------

  /** global_best_top_map: top key -> best fit so far. */
  type BestMap = map<TopKey, BestFit>

  /** A scoring of candidates; the program's is ScoreWith(fit). The selection below holds
      for any scoring. */
  type Scorer = Cand -> Option<BestFit>

  function ScoreWith(fit: (seq<real>, seq<real>, seq<real>) -> Option<Line>): Scorer {
    d => Evaluate(d, fit)
  }

  predicate Accepted(d: Cand, score: Scorer) {
    score(d).Some?
  }

  /** One candidate offered to the map: an accepted candidate enters when its key is
      absent or it scores strictly lower than the entry. */
  function Offer(m: BestMap, d: Cand, score: Scorer): BestMap {
    match score(d)
    case None => m
    case Some(bf) =>
      var k := CandKey(d);
      if k !in m || bf.chi2ndf < m[k].chi2ndf then m[k := bf] else m
  }

  /** The map after offering the candidates in order. */
  function FoldBest(m: BestMap, cs: seq<Cand>, score: Scorer): BestMap {
    if cs == [] then m else Offer(FoldBest(m, cs[..|cs| - 1], score), cs[|cs| - 1], score)
  }

  lemma {:induction false} FoldBestAppend(m: BestMap, a: seq<Cand>, b: seq<Cand>, score: Scorer)
    ensures FoldBest(m, a + b, score) == FoldBest(FoldBest(m, a, score), b, score)
    decreases |b|
  {
    if b == [] {
      assert a + b == a;
    } else {
      assert (a + b)[..|a + b| - 1] == a + b[..|b| - 1];
      assert (a + b)[|a + b| - 1] == b[|b| - 1];
      FoldBestAppend(m, a, b[..|b| - 1], score);
    }
  }

  /** Candidate i is the one kept for key k: accepted with that key, no accepted candidate
      with that key scores lower, and every earlier one scores strictly higher. */
  ghost predicate IsBestFor(cs: seq<Cand>, score: Scorer, k: TopKey, i: int) {
    && 0 <= i < |cs| && Accepted(cs[i], score) && CandKey(cs[i]) == k
    && (forall j :: 0 <= j < |cs| && Accepted(cs[j], score) && CandKey(cs[j]) == k ==>
          score(cs[i]).value.chi2ndf <= score(cs[j]).value.chi2ndf)
    && (forall j :: 0 <= j < i && Accepted(cs[j], score) && CandKey(cs[j]) == k ==>
          score(cs[j]).value.chi2ndf > score(cs[i]).value.chi2ndf)
  }

  /** After the candidates of a window, the map's keys are exactly the keys of accepted
      candidates. */
  lemma {:induction false} FoldBestKeys(cs: seq<Cand>, score: Scorer)
    ensures forall k :: k in FoldBest(map[], cs, score) <==>
              exists i :: 0 <= i < |cs| && Accepted(cs[i], score) && CandKey(cs[i]) == k
  {
    if cs != [] {
      var init, last := cs[..|cs| - 1], cs[|cs| - 1];
      FoldBestKeys(init, score);
      var m0 := FoldBest(map[], init, score);
      assert FoldBest(map[], cs, score) == Offer(m0, last, score);
      assert forall j :: 0 <= j < |init| ==> cs[j] == init[j];
      forall k
        ensures (exists i :: 0 <= i < |cs| && Accepted(cs[i], score) && CandKey(cs[i]) == k)
                <==> (k in m0 || (Accepted(last, score) && CandKey(last) == k))
      {
        if exists i :: 0 <= i < |cs| && Accepted(cs[i], score) && CandKey(cs[i]) == k {
          var i :| 0 <= i < |cs| && Accepted(cs[i], score) && CandKey(cs[i]) == k;
          if i < |init| {
            assert Accepted(init[i], score) && CandKey(init[i]) == k;
          }
        }
        if k in m0 {
          var i :| 0 <= i < |init| && Accepted(init[i], score) && CandKey(init[i]) == k;
          assert Accepted(cs[i], score) && CandKey(cs[i]) == k;
        }
        if Accepted(last, score) && CandKey(last) == k {
          assert Accepted(cs[|init|], score) && CandKey(cs[|init|]) == k;
        }
      }
    }
  }

  /** A kept candidate stays kept when a later one does not beat it. */
  lemma IsBestForExtend(init: seq<Cand>, last: Cand, score: Scorer, k: TopKey, i: int)
    requires IsBestFor(init, score, k, i)
    requires Accepted(last, score) && CandKey(last) == k ==>
               score(last).value.chi2ndf >= score(init[i]).value.chi2ndf
    ensures IsBestFor(init + [last], score, k, i)
  {
    var cs := init + [last];
    assert forall j :: 0 <= j < |init| ==> cs[j] == init[j];
    assert cs[|init|] == last;
  }

  /** A later candidate is kept when every earlier one with its key scores strictly higher. */
  lemma IsBestForLast(init: seq<Cand>, last: Cand, score: Scorer, k: TopKey)
    requires Accepted(last, score) && CandKey(last) == k
    requires forall j :: 0 <= j < |init| && Accepted(init[j], score) && CandKey(init[j]) == k ==>
               score(init[j]).value.chi2ndf > score(last).value.chi2ndf
    ensures IsBestFor(init + [last], score, k, |init|)
  {
    var cs := init + [last];
    assert forall j :: 0 <= j < |init| ==> cs[j] == init[j];
    assert cs[|init|] == last;
  }

  /** Offering one more candidate keeps every entry the earliest minimal fit for its key. */
  lemma OfferKeepsMinimal(init: seq<Cand>, last: Cand, score: Scorer, m0: BestMap, k: TopKey)
    requires forall k' :: k' in m0 ==> exists i :: IsBestFor(init, score, k', i) && m0[k'] == score(init[i]).value
    requires forall k' :: k' in m0 <==> exists i :: 0 <= i < |init| && Accepted(init[i], score) && CandKey(init[i]) == k'
    requires k in Offer(m0, last, score)
    ensures exists i :: IsBestFor(init + [last], score, k, i) && Offer(m0, last, score)[k] == score((init + [last])[i]).value
  {
    var cs := init + [last];
    if Accepted(last, score) && CandKey(last) == k && (k !in m0 || score(last).value.chi2ndf < m0[k].chi2ndf) {
      if k in m0 {
        var i :| IsBestFor(init, score, k, i) && m0[k] == score(init[i]).value;
      }
      IsBestForLast(init, last, score, k);
      assert cs[|init|] == last;
    } else {
      var i :| IsBestFor(init, score, k, i) && m0[k] == score(init[i]).value;
      IsBestForExtend(init, last, score, k, i);
      assert cs[i] == init[i];
    }
  }

  /** Each key of the map holds the fit of the earliest candidate of minimal chi2/ndf among
      the accepted candidates with that key. */
  lemma {:induction false} FoldBestMinimal(cs: seq<Cand>, score: Scorer)
    ensures forall k :: k in FoldBest(map[], cs, score) ==>
              exists i :: IsBestFor(cs, score, k, i) && FoldBest(map[], cs, score)[k] == score(cs[i]).value
  {
    if cs != [] {
      var init, last := cs[..|cs| - 1], cs[|cs| - 1];
      assert cs == init + [last];
      FoldBestMinimal(init, score);
      FoldBestKeys(init, score);
      var m0 := FoldBest(map[], init, score);
      assert FoldBest(map[], cs, score) == Offer(m0, last, score);
      forall k | k in Offer(m0, last, score)
        ensures exists i :: IsBestFor(init + [last], score, k, i) && Offer(m0, last, score)[k] == score((init + [last])[i]).value
      {
        OfferKeepsMinimal(init, last, score, m0, k);
      }
    }
  }

  // ---------------------------------------------------------------------------
  // The enumeration order of a window (lines 275-367)
  // ---------------------------------------------------------------------------

  /** The candidates of bases 0..n-1 of pair p in an iteration. */
  function BaseCands(wh: seq<Hit>, iteration: int, p: int, n: int): seq<Cand>
    requires 1 <= iteration <= 2 && 0 <= p < |ModulePairs| && 0 <= n <= 8
  {
    if n == 0 then [] else BaseCands(wh, iteration, p, n - 1) + ComboCands(wh, ComboAt(iteration, p, n - 1))
  }

  /** The candidates of pairs 0..n-1 in an iteration. */
  function PairCands(wh: seq<Hit>, iteration: int, n: int): seq<Cand>
    requires 1 <= iteration <= 2 && 0 <= n <= |ModulePairs|
  {
    if n == 0 then [] else PairCands(wh, iteration, n - 1) + BaseCands(wh, iteration, n - 1, 8)
  }

  /** The number of passes over the module pairs (line 275). */
  const Iterations: int := 2

  /** The candidates of iterations 1..n. */
  function IterCands(wh: seq<Hit>, n: int): seq<Cand>
    requires 0 <= n <= 2
  {
    if n == 0 then [] else IterCands(wh, n - 1) + PairCands(wh, n, |ModulePairs|)
  }

  /** Every candidate of a window, in the order the program offers them. */
  function WindowCands(wh: seq<Hit>): seq<Cand> {
    IterCands(wh, Iterations)
  }

  /** The map a window ends with. */
  function WindowBest(wh: seq<Hit>, fit: (seq<real>, seq<real>, seq<real>) -> Option<Line>): BestMap {
    FoldBest(map[], WindowCands(wh), ScoreWith(fit))
  }

  /** One step of a product loop: offering the candidates of l[..i+1] is offering those of
      l[..i] and then those extending pre + [l[i]]. */
  lemma ProductOverStep(m: BestMap, c: Combo, pre: seq<Hit>, l: seq<Hit>, i: int, ls: seq<seq<Hit>>, score: Scorer)
    requires |pre| < |ls| == 6 && 0 <= i < |l|
    ensures FoldBest(m, ProductOver(c, pre, l[..i + 1], ls), score)
         == FoldBest(FoldBest(m, ProductOver(c, pre, l[..i], ls), score), Product(c, pre + [l[i]], ls), score)
  {
    assert l[..i + 1][..i] == l[..i];
    FoldBestAppend(m, ProductOver(c, pre, l[..i], ls), Product(c, pre + [l[i]], ls), score);
  }

  /** The whole of a product loop is the product at that depth. */
  lemma ProductOverAll(c: Combo, pre: seq<Hit>, l: seq<Hit>, ls: seq<seq<Hit>>)
    requires |pre| < |ls| == 6 && ls[|pre|] == l
    ensures ProductOver(c, pre, l[..|l|], ls) == Product(c, pre, ls)
  {
    assert l[..|l|] == l;
  }

  /** Every hit of the list has a channel of the module. */
  predicate ChannelsInModule(l: seq<Hit>) {
    forall k :: 0 <= k < |l| ==> 0 <= l[k].chnlId < ChannelsPerModule
  }

  /** geoA and geoB are the table rows of the combination's two modules. */
  predicate GeoRowsOf(c: Combo, geoA: seq<Point>, geoB: seq<Point>)
    requires ValidCombo(c)
  {
    && |geoA| == ChannelsPerModule && |geoB| == ChannelsPerModule
    && (forall ch :: 0 <= ch < ChannelsPerModule ==> geoA[ch] == GeoEntry(c.t0, ch) && geoB[ch] == GeoEntry(c.t1, ch))
  }

  /** The lists of the product loops, in loop order, with channels of the module. */
  predicate LoopLists(ls: seq<seq<Hit>>) {
    |ls| == 6 && forall k :: 0 <= k < 6 ==> ChannelsInModule(ls[k])
  }

  /** Lines 323-358 for one candidate: score it and keep it when its key is new or it
      scores strictly lower than the entry. */
  method OfferCandidate(best0: BestMap, d: Cand, geoA: seq<Point>, geoB: seq<Point>,
                        fit: (seq<real>, seq<real>, seq<real>) -> Option<Line>) returns (best: BestMap)
    requires ValidCombo(d.combo) && GeoRowsOf(d.combo, geoA, geoB)
    requires forall i :: 0 <= i < 6 ==> 0 <= d.Tubes()[i].chnlId < ChannelsPerModule
    ensures best == Offer(best0, d, ScoreWith(fit))
  {
    var r := EvaluateCandidate(d, geoA, geoB, fit);
    best := best0;
    if r.Some? {
      var key := KeyOf(d.aTop);
      if key !in best || r.value.chi2ndf < best[key].chi2ndf {
        best := best[key := r.value];
      }
    }
  }

  /** A full sextuple is the one candidate it extends to, and folding it in is offering it. */
  lemma FullSextuple(m: BestMap, c: Combo, p: seq<Hit>, ls: seq<seq<Hit>>, score: Scorer)
    requires |p| == 6 && |ls| == 6 && ChannelsInModule(p)
    ensures Product(c, p, ls) == [ToCand(c, p)]
    ensures FoldBest(m, [ToCand(c, p)], score) == Offer(m, ToCand(c, p), score)
    ensures forall i :: 0 <= i < 6 ==> 0 <= ToCand(c, p).Tubes()[i].chnlId < ChannelsPerModule
  {
    var d := ToCand(c, p);
    assert d.Tubes() == [p[2], p[3], p[0], p[4], p[5], p[1]];
  }

  /** The innermost loop (B_med) of line 320 below a fixed A_top, B_top, A_bot, A_med and
      B_bot. */
  method OfferMedB(best0: BestMap, c: Combo, pre: seq<Hit>, ls: seq<seq<Hit>>,
                   geoA: seq<Point>, geoB: seq<Point>, fit: (seq<real>, seq<real>, seq<real>) -> Option<Line>)
    returns (best: BestMap)
    requires ValidCombo(c) && LoopLists(ls) && GeoRowsOf(c, geoA, geoB)
    requires |pre| == 5 && ChannelsInModule(pre)
    ensures best == FoldBest(best0, Product(c, pre, ls), ScoreWith(fit))
  {
    ghost var score := ScoreWith(fit);
    var arrBMed := ls[5];
    best := best0;
    for i6 := 0 to |arrBMed|
      invariant best == FoldBest(best0, ProductOver(c, pre, arrBMed[..i6], ls), score)
    {
      var hBMed := arrBMed[i6];
      ghost var before := best;
      assert ChannelsInModule(ls[5]);
      assert ChannelsInModule(pre + [hBMed]);
      var d := Cand(c, pre[2], pre[3], pre[0], pre[4], hBMed, pre[1]);
      assert d == ToCand(c, pre + [hBMed]);
      FullSextuple(before, c, pre + [hBMed], ls, score);
      best := OfferCandidate(best, d, geoA, geoB, fit);
      ProductOverStep(best0, c, pre, arrBMed, i6, ls, score);
    }
    ProductOverAll(c, pre, arrBMed, ls);
  }

  /** The innermost two loops (B_bot, B_med) of lines 319-320 below a fixed A_top, B_top,
      A_bot and A_med: score each candidate and offer it to the map. */
  method OfferInner(best0: BestMap, c: Combo, pre: seq<Hit>, ls: seq<seq<Hit>>,
                    geoA: seq<Point>, geoB: seq<Point>, fit: (seq<real>, seq<real>, seq<real>) -> Option<Line>)
    returns (best: BestMap)
    requires ValidCombo(c) && LoopLists(ls) && GeoRowsOf(c, geoA, geoB)
    requires |pre| == 4 && ChannelsInModule(pre)
    ensures best == FoldBest(best0, Product(c, pre, ls), ScoreWith(fit))
  {
    ghost var score := ScoreWith(fit);
    var arrBBot := ls[4];
    best := best0;
    for i5 := 0 to |arrBBot|
      invariant best == FoldBest(best0, ProductOver(c, pre, arrBBot[..i5], ls), score)
    {
      var hBBot := arrBBot[i5];
      assert ChannelsInModule(ls[4]);
      assert ChannelsInModule(pre + [hBBot]);
      best := OfferMedB(best, c, pre + [hBBot], ls, geoA, geoB, fit);
      ProductOverStep(best0, c, pre, arrBBot, i5, ls, score);
    }
    ProductOverAll(c, pre, arrBBot, ls);
  }

  /** The middle two loops (A_bot, A_med) of lines 317-318 below a fixed A_top and B_top. */
  method OfferMiddle(best0: BestMap, c: Combo, pre: seq<Hit>, ls: seq<seq<Hit>>,
                     geoA: seq<Point>, geoB: seq<Point>, fit: (seq<real>, seq<real>, seq<real>) -> Option<Line>)
    returns (best: BestMap)
    requires ValidCombo(c) && LoopLists(ls) && GeoRowsOf(c, geoA, geoB)
    requires |pre| == 2 && ChannelsInModule(pre)
    ensures best == FoldBest(best0, Product(c, pre, ls), ScoreWith(fit))
  {
    ghost var score := ScoreWith(fit);
    var arrABot, arrAMed := ls[2], ls[3];
    best := best0;
    for i3 := 0 to |arrABot|
      invariant best == FoldBest(best0, ProductOver(c, pre, arrABot[..i3], ls), score)
    {
      var hABot := arrABot[i3];
      ghost var e4 := best;
      for i4 := 0 to |arrAMed|
        invariant best == FoldBest(e4, ProductOver(c, pre + [hABot], arrAMed[..i4], ls), score)
      {
        var hAMed := arrAMed[i4];
        best := OfferInner(best, c, pre + [hABot] + [hAMed], ls, geoA, geoB, fit);
        ProductOverStep(e4, c, pre + [hABot], arrAMed, i4, ls, score);
      }
      ProductOverAll(c, pre + [hABot], arrAMed, ls);
      ProductOverStep(best0, c, pre, arrABot, i3, ls, score);
    }
    ProductOverAll(c, pre, arrABot, ls);
  }

  /** The outer two loops (A_top, B_top) of lines 315-316 around the rest. */
  method OfferOuter(best0: BestMap, c: Combo, ls: seq<seq<Hit>>,
                    geoA: seq<Point>, geoB: seq<Point>, fit: (seq<real>, seq<real>, seq<real>) -> Option<Line>)
    returns (best: BestMap)
    requires ValidCombo(c) && LoopLists(ls) && GeoRowsOf(c, geoA, geoB)
    ensures best == FoldBest(best0, Product(c, [], ls), ScoreWith(fit))
  {
    ghost var score := ScoreWith(fit);
    var arrATop, arrBTop := ls[0], ls[1];
    best := best0;
    for i1 := 0 to |arrATop|
      invariant best == FoldBest(best0, ProductOver(c, [], arrATop[..i1], ls), score)
    {
      var hATop := arrATop[i1];
      ghost var e2 := best;
      for i2 := 0 to |arrBTop|
        invariant best == FoldBest(e2, ProductOver(c, [hATop], arrBTop[..i2], ls), score)
      {
        var hBTop := arrBTop[i2];
        best := OfferMiddle(best, c, [hATop] + [hBTop], ls, geoA, geoB, fit);
        ProductOverStep(e2, c, [hATop], arrBTop, i2, ls, score);
      }
      ProductOverAll(c, [hATop], arrBTop, ls);
      assert [] + [hATop] == [hATop];
      ProductOverStep(best0, c, [], arrATop, i1, ls, score);
    }
    ProductOverAll(c, [], arrATop, ls);
  }

  /** The index has an entry for every slot of the combination. */
  predicate SlotsIndexed(index: HitIndex, c: Combo) {
    && c.t0 in index && c.t1 in index
    && SlotChannel(c, 0) in index[c.t0] && SlotChannel(c, 1) in index[c.t0] && SlotChannel(c, 2) in index[c.t0]
    && SlotChannel(c, 0) in index[c.t1] && SlotChannel(c, 1) in index[c.t1] && SlotChannel(c, 2) in index[c.t1]
  }

  /** A slot missing from an exact index has no hits, so the combination has no candidates. */
  lemma MissingSlotNoCands(index: HitIndex, wh: seq<Hit>, c: Combo)
    requires IndexOf(index, wh) && !SlotsIndexed(index, c)
    ensures ComboCands(wh, c) == []
  {
    var ls := SlotLists(wh, c);
    var k: int;
    if c.t0 !in index {
      k := 0;
      assert forall i :: 0 <= i < |wh| ==> wh[i].tdcId != c.t0;
    } else if c.t1 !in index {
      k := 1;
      assert forall i :: 0 <= i < |wh| ==> wh[i].tdcId != c.t1;
    } else if SlotChannel(c, 2) !in index[c.t0] {
      k := 0;
    } else if SlotChannel(c, 0) !in index[c.t0] {
      k := 2;
    } else if SlotChannel(c, 1) !in index[c.t0] {
      k := 3;
    } else if SlotChannel(c, 2) !in index[c.t1] {
      k := 1;
    } else if SlotChannel(c, 0) !in index[c.t1] {
      k := 4;
    } else {
      k := 5;
    }
    assert ls[k] == [];
  }

  /** With every slot in an exact index, the index's lists are the slot lists. */
  lemma IndexedSlotLists(index: HitIndex, wh: seq<Hit>, c: Combo)
    requires IndexOf(index, wh) && SlotsIndexed(index, c)
    ensures [index[c.t0][SlotChannel(c, 2)], index[c.t1][SlotChannel(c, 2)], index[c.t0][SlotChannel(c, 0)],
             index[c.t0][SlotChannel(c, 1)], index[c.t1][SlotChannel(c, 0)], index[c.t1][SlotChannel(c, 1)]]
            == SlotLists(wh, c)
    ensures ComboCands(wh, c) == Product(c, [], SlotLists(wh, c))
  {
  }

  /** The slot lists have channels of the module, and the geometry rows of the
      combination's modules are table rows. */
  lemma SlotListsAreLoopLists(wh: seq<Hit>, geo: seq<seq<Point>>, c: Combo)
    requires IsGeometryTable(geo) && ValidCombo(c)
    ensures LoopLists(SlotLists(wh, c)) && GeoRowsOf(c, geo[c.t0], geo[c.t1])
  {
    SlotChannelsInModule(c, 0);
    SlotChannelsInModule(c, 1);
    SlotChannelsInModule(c, 2);
  }

  /** One combination (lines 294-364): the presence checks of map_hits, then the six
      nested loops. */
  method OfferCombination(best0: BestMap, index: HitIndex, wh: seq<Hit>, geo: seq<seq<Point>>,
                          fit: (seq<real>, seq<real>, seq<real>) -> Option<Line>, c: Combo) returns (best: BestMap)
    requires IndexOf(index, wh) && IsGeometryTable(geo) && ValidCombo(c)
    ensures best == FoldBest(best0, ComboCands(wh, c), ScoreWith(fit))
  {
    SlotListsAreLoopLists(wh, geo, c);
    if !SlotsIndexed(index, c) {
      MissingSlotNoCands(index, wh, c);
    } else {
      IndexedSlotLists(index, wh, c);
    }
    best := best0;
    var t0, t1 := c.t0, c.t1;
    var chBot, chMed, chTop := SlotChannel(c, 0), SlotChannel(c, 1), SlotChannel(c, 2);
    if t0 !in index || t1 !in index {
      return;
    }
    var chmapA := index[t0];
    var chmapB := index[t1];
    if chBot !in chmapA || chMed !in chmapA || chTop !in chmapA {
      return;
    }
    if chBot !in chmapB || chMed !in chmapB || chTop !in chmapB {
      return;
    }
    var lists := [chmapA[chTop], chmapB[chTop], chmapA[chBot], chmapA[chMed], chmapB[chBot], chmapB[chMed]];
    best := OfferOuter(best0, c, lists, geo[t0], geo[t1], fit);
  }


  /** The base loop of lines 293-365 for one module pair. */
  method BestOfPair(best0: BestMap, wh: seq<Hit>, index: HitIndex, geo: seq<seq<Point>>,
                    fit: (seq<real>, seq<real>, seq<real>) -> Option<Line>, iteration: int, p: int) returns (best: BestMap)
    requires IndexOf(index, wh) && IsGeometryTable(geo)
    requires 1 <= iteration <= 2 && 0 <= p < |ModulePairs|
    ensures best == FoldBest(best0, BaseCands(wh, iteration, p, 8), ScoreWith(fit))
  {
    ghost var score := ScoreWith(fit);
    best := best0;
    for base := 0 to 8
      invariant best == FoldBest(best0, BaseCands(wh, iteration, p, base), score)
    {
      best := OfferCombination(best, index, wh, geo, fit, ComboAt(iteration, p, base));
      FoldBestAppend(best0, BaseCands(wh, iteration, p, base), ComboCands(wh, ComboAt(iteration, p, base)), score);
    }
  }

  /** The pair loop of lines 286-366 in one iteration. */
  method BestOfIteration(best0: BestMap, wh: seq<Hit>, index: HitIndex, geo: seq<seq<Point>>,
                         fit: (seq<real>, seq<real>, seq<real>) -> Option<Line>, iteration: int) returns (best: BestMap)
    requires IndexOf(index, wh) && IsGeometryTable(geo) && 1 <= iteration <= 2
    ensures best == FoldBest(best0, PairCands(wh, iteration, |ModulePairs|), ScoreWith(fit))
  {
    best := best0;
    for p := 0 to |ModulePairs|
      invariant best == FoldBest(best0, PairCands(wh, iteration, p), ScoreWith(fit))
    {
      best := BestOfPair(best, wh, index, geo, fit, iteration, p);
      FoldBestAppend(best0, PairCands(wh, iteration, p), BaseCands(wh, iteration, p, 8), ScoreWith(fit));
    }
  }

  /** The iteration loop of lines 275-367 over one window: the best fit per top key. */
  method BestOfWindow(wh: seq<Hit>, index: HitIndex, geo: seq<seq<Point>>,
                      fit: (seq<real>, seq<real>, seq<real>) -> Option<Line>) returns (best: BestMap)
    requires IndexOf(index, wh) && IsGeometryTable(geo)
    ensures best == WindowBest(wh, fit)
  {
    best := map[];
    for iteration := 1 to Iterations + 1
      invariant best == FoldBest(map[], IterCands(wh, iteration - 1), ScoreWith(fit))
    {
      best := BestOfIteration(best, wh, index, geo, fit, iteration);
      FoldBestAppend(map[], IterCands(wh, iteration - 1), PairCands(wh, iteration, |ModulePairs|), ScoreWith(fit));
    }
  }

  // ---------------------------------------------------------------------------
  // What a window's kept fits look like
  // ---------------------------------------------------------------------------

  /** On a stacked pair, the top slot of the upper module lies strictly above the three
      slots of the lower module and the other two slots of the upper one. */
  lemma TopSlotIsHighest(c: Combo)
    requires PairCombo(c)
    ensures forall slot :: 0 <= slot < 3 ==> GeoEntry(c.t0, SlotChannel(c, slot)).1 < GeoEntry(c.t1, SlotChannel(c, 2)).1
    ensures forall slot :: 0 <= slot < 2 ==> GeoEntry(c.t1, SlotChannel(c, slot)).1 < GeoEntry(c.t1, SlotChannel(c, 2)).1
  {
    var p := c.t0 / 2;
    assert c.t0 == 2 * p && c.t1 == 2 * p + 1 && 0 <= p < |ModulePairs|;
    SlotRows(c);
    SlotChannelsInModule(c, 0);
    SlotChannelsInModule(c, 1);
    SlotChannelsInModule(c, 2);
    TubeHeight(p, false, SlotChannel(c, 0));
    TubeHeight(p, false, SlotChannel(c, 1));
    TubeHeight(p, false, SlotChannel(c, 2));
    TubeHeight(p, true, SlotChannel(c, 0));
    TubeHeight(p, true, SlotChannel(c, 1));
    TubeHeight(p, true, SlotChannel(c, 2));
  }

  /** The heights of an accepted candidate's tubes are those of its slots. */
  lemma SlotHeights(d: Cand, fit: (seq<real>, seq<real>, seq<real>) -> Option<Line>)
    requires PairCombo(d.combo) && OnSlots(d) && Evaluate(d, fit).Some?
    ensures var c, ys := d.combo, Evaluate(d, fit).value.ys;
            && 0 <= SlotChannel(c, 0) < ChannelsPerModule && 0 <= SlotChannel(c, 1) < ChannelsPerModule
            && 0 <= SlotChannel(c, 2) < ChannelsPerModule
            && ys[0] == GeoEntry(c.t0, SlotChannel(c, 0)).1 && ys[1] == GeoEntry(c.t0, SlotChannel(c, 1)).1
            && ys[2] == GeoEntry(c.t0, SlotChannel(c, 2)).1 && ys[3] == GeoEntry(c.t1, SlotChannel(c, 0)).1
            && ys[4] == GeoEntry(c.t1, SlotChannel(c, 1)).1 && ys[5] == GeoEntry(c.t1, SlotChannel(c, 2)).1
  {
    EvaluateMeaning(d, fit);
    var c := d.combo;
    SlotChannelsInModule(c, 0);
    SlotChannelsInModule(c, 1);
    SlotChannelsInModule(c, 2);
    var ys := Evaluate(d, fit).value.ys;
    assert ys[0] == TubePosition(d, 0).1;
    assert ys[1] == TubePosition(d, 1).1;
    assert ys[2] == TubePosition(d, 2).1;
    assert ys[3] == TubePosition(d, 3).1;
    assert ys[4] == TubePosition(d, 4).1;
    assert ys[5] == TubePosition(d, 5).1;
  }

  /** In a candidate of a stacked pair on its slots, tube 5 (B_top) lies strictly above the
      other five: the upper module starts 347 mm above the lower one, and B_top is in its
      top row. */
  lemma TopTubeIsHighest(d: Cand, fit: (seq<real>, seq<real>, seq<real>) -> Option<Line>)
    requires PairCombo(d.combo) && OnSlots(d) && Evaluate(d, fit).Some?
    ensures forall j :: 0 <= j < 5 ==> Evaluate(d, fit).value.ys[j] < Evaluate(d, fit).value.ys[5]
  {
    SlotHeights(d, fit);
    TopSlotIsHighest(d.combo);
    var c := d.combo;
    assert GeoEntry(c.t0, SlotChannel(c, 0)).1 < GeoEntry(c.t1, SlotChannel(c, 2)).1;
    assert GeoEntry(c.t0, SlotChannel(c, 1)).1 < GeoEntry(c.t1, SlotChannel(c, 2)).1;
    assert GeoEntry(c.t0, SlotChannel(c, 2)).1 < GeoEntry(c.t1, SlotChannel(c, 2)).1;
    assert GeoEntry(c.t1, SlotChannel(c, 0)).1 < GeoEntry(c.t1, SlotChannel(c, 2)).1;
    assert GeoEntry(c.t1, SlotChannel(c, 1)).1 < GeoEntry(c.t1, SlotChannel(c, 2)).1;
  }

  /** A candidate of a window as the loops build it. */
  ghost predicate ProperCand(wh: seq<Hit>, d: Cand) {
    PairCombo(d.combo) && OnSlots(d) && forall i :: 0 <= i < 6 ==> d.Tubes()[i] in wh
  }

  /** Candidates of two proper lists, concatenated, are proper. */
  lemma ProperConcat(wh: seq<Hit>, a: seq<Cand>, b: seq<Cand>)
    requires forall d :: d in a ==> ProperCand(wh, d)
    requires forall d :: d in b ==> ProperCand(wh, d)
    ensures forall d :: d in a + b ==> ProperCand(wh, d)
  {
  }

  lemma {:induction false} BaseCandsProper(wh: seq<Hit>, iteration: int, p: int, n: int)
    requires 1 <= iteration <= 2 && 0 <= p < |ModulePairs| && 0 <= n <= 8
    ensures forall d :: d in BaseCands(wh, iteration, p, n) ==> ProperCand(wh, d)
  {
    if n > 0 {
      var a, c := BaseCands(wh, iteration, p, n - 1), ComboAt(iteration, p, n - 1);
      BaseCandsProper(wh, iteration, p, n - 1);
      ComboCandsOnSlots(wh, c);
      ComboAtIsPair(iteration, p, n - 1);
      ProperConcat(wh, a, ComboCands(wh, c));
    }
  }

  lemma {:induction false} PairCandsProper(wh: seq<Hit>, iteration: int, n: int)
    requires 1 <= iteration <= 2 && 0 <= n <= |ModulePairs|
    ensures forall d :: d in PairCands(wh, iteration, n) ==> ProperCand(wh, d)
  {
    if n > 0 {
      var a, b := PairCands(wh, iteration, n - 1), BaseCands(wh, iteration, n - 1, 8);
      assert forall d :: d in a ==> ProperCand(wh, d) by { PairCandsProper(wh, iteration, n - 1); }
      assert forall d :: d in b ==> ProperCand(wh, d) by { BaseCandsProper(wh, iteration, n - 1, 8); }
      ProperConcat(wh, a, b);
    }
  }

  lemma {:induction false} IterCandsProper(wh: seq<Hit>, n: int)
    requires 0 <= n <= 2
    ensures forall d :: d in IterCands(wh, n) ==> ProperCand(wh, d)
  {
    if n > 0 {
      var a, b := IterCands(wh, n - 1), PairCands(wh, n, |ModulePairs|);
      assert forall d :: d in a ==> ProperCand(wh, d) by { IterCandsProper(wh, n - 1); }
      assert forall d :: d in b ==> ProperCand(wh, d) by { PairCandsProper(wh, n, |ModulePairs|); }
      ProperConcat(wh, a, b);
    }
  }

  /** A fit kept under key k for window wh: six tubes of the window, the first three on the
      lower module and the last three on the upper, A_top carrying the key, chi2/ndf within
      the cut, and tube 5 strictly the highest. */
  ghost predicate GoodFit(bf: BestFit, k: TopKey, wh: seq<Hit>) {
    && |bf.tubes| == 6 && |bf.xs| == 6 && |bf.ys| == 6 && |bf.residuals| == 6
    && KeyOf(bf.tubes[2]) == k
    && 0.0 <= bf.chi2ndf <= Chi2NdfCut
    && (forall i :: 0 <= i < 6 ==> bf.tubes[i] in wh)
    && bf.tubes[0].tdcId == bf.tubes[1].tdcId == bf.tubes[2].tdcId
    && bf.tubes[3].tdcId == bf.tubes[4].tdcId == bf.tubes[5].tdcId == bf.tubes[0].tdcId + 1
    && (forall j :: 0 <= j < 5 ==> bf.ys[j] < bf.ys[5])
  }

  /** An accepted candidate of a window yields a good fit for its key. */
  lemma ProperCandFitIsGood(wh: seq<Hit>, d: Cand, fit: (seq<real>, seq<real>, seq<real>) -> Option<Line>)
    requires ProperCand(wh, d) && Evaluate(d, fit).Some?
    ensures GoodFit(Evaluate(d, fit).value, CandKey(d), wh)
  {
    TopTubeIsHighest(d, fit);
  }

  /** Every fit a window keeps is a good fit for its key. */
  lemma WindowBestIsGood(wh: seq<Hit>, fit: (seq<real>, seq<real>, seq<real>) -> Option<Line>)
    ensures forall k :: k in WindowBest(wh, fit) ==> GoodFit(WindowBest(wh, fit)[k], k, wh)
  {
    var cs := WindowCands(wh);
    var score := ScoreWith(fit);
    var best := WindowBest(wh, fit);
    FoldBestMinimal(cs, score);
    IterCandsProper(wh, Iterations);
    forall k | k in best
      ensures GoodFit(best[k], k, wh)
    {
      var i :| IsBestFor(cs, score, k, i) && best[k] == score(cs[i]).value;
      assert cs[i] in cs;
      ProperCandFitIsGood(wh, cs[i], fit);
    }
  }

  /** The keys a window keeps are exactly the top keys of its accepted candidates, and
      each holds the earliest candidate of least chi2/ndf among those with its key. */
  lemma WindowBestSelects(wh: seq<Hit>, fit: (seq<real>, seq<real>, seq<real>) -> Option<Line>)
    ensures forall k :: k in WindowBest(wh, fit) <==>
              exists i :: 0 <= i < |WindowCands(wh)| && Evaluate(WindowCands(wh)[i], fit).Some? && CandKey(WindowCands(wh)[i]) == k
    ensures forall k :: k in WindowBest(wh, fit) ==>
              exists i :: IsBestFor(WindowCands(wh), ScoreWith(fit), k, i)
                          && WindowBest(wh, fit)[k] == Evaluate(WindowCands(wh)[i], fit).value
  {
    var cs := WindowCands(wh);
    var score := ScoreWith(fit);
    FoldBestKeys(cs, score);
    FoldBestMinimal(cs, score);
    assert forall i :: 0 <= i < |cs| ==> score(cs[i]) == Evaluate(cs[i], fit);
  }
}
