/** Bundle emission (muon_tracker_fixed.cpp, lines 369-399): every fit a window keeps
    becomes six output rows under a fresh track id. */
module Bundles {
  import opened Hits
  import opened Candidates

  /** A fit with the six tubes, positions and residuals a bundle is made of. */
  predicate Emittable(bf: BestFit) {
    |bf.tubes| == 6 && |bf.xs| == 6 && |bf.ys| == 6 && |bf.residuals| == 6
  }

  function TriggerSum(hs: seq<Hit>): int {
    if hs == [] then 0 else TriggerSum(hs[..|hs| - 1]) + hs[|hs| - 1].triggerLedge
  }

  /** tavg of lines 373-375. */
  function MeanTrigger(bf: BestFit): real {
    (TriggerSum(bf.tubes) as real) / 6.0
  }

  /** The row of tube i (lines 376-395). */
  function SavedRow(bf: BestFit, trackId: int, i: int, tavg: real): SavedHit
    requires Emittable(bf) && 0 <= i < 6
  {
    var ph := bf.tubes[i];
    SavedHit(trackId, ph.tdcId, ph.chnlId, ph.eventId, ph.triggerLedge, ph.adcTime, ph.driftTime, ph.corrTime,
             ph.triggerLedge as real - tavg, bf.xs[i], bf.ys[i], ph.driftRadius, bf.residuals[i],
             bf.line.a, bf.line.b, bf.line.c, bf.chi2ndf)
  }

  /** The six rows of a bundle, in tube order. */
  function BundleRows(bf: BestFit, trackId: int): (rows: seq<SavedHit>)
    requires Emittable(bf)
    ensures |rows| == 6
  {
    seq(6, i requires 0 <= i < 6 => SavedRow(bf, trackId, i, MeanTrigger(bf)))
  }

  function SumDt(rows: seq<SavedHit>): real {
    if rows == [] then 0.0 else SumDt(rows[..|rows| - 1]) + rows[|rows| - 1].dt
  }

  /** Rows whose Dt values are their hits' triggers less m sum to the trigger sum less
      m once per row. */
  lemma {:induction false} SumDtOffsets(rows: seq<SavedHit>, hs: seq<Hit>, m: real)
    requires |rows| == |hs| && forall i :: 0 <= i < |rows| ==> rows[i].dt == hs[i].triggerLedge as real - m
    ensures SumDt(rows) == (TriggerSum(hs) as real) - (|rows| as real) * m
  {
    if rows != [] {
      var n := |rows| - 1;
      SumDtOffsets(rows[..n], hs[..n], m);
      assert (|rows| as real) * m == (n as real) * m + m;
    }
  }

  /** The six rows share the track id, the line and chi2/ndf; row i carries tube i's hit,
      position and residual; and the Dt values, each trigger less the bundle mean, sum
      to zero. */
  lemma BundleRowsShape(bf: BestFit, trackId: int)
    requires Emittable(bf)
    ensures var rows := BundleRows(bf, trackId);
            && (forall i :: 0 <= i < 6 ==>
                  && rows[i].trackId == trackId && rows[i].chi2ndf == bf.chi2ndf
                  && rows[i].a == bf.line.a && rows[i].b == bf.line.b && rows[i].c == bf.line.c
                  && SavedKeyOf(rows[i]) == KeyOf(bf.tubes[i])
                  && rows[i].x == bf.xs[i] && rows[i].y == bf.ys[i] && rows[i].residual == bf.residuals[i]
                  && rows[i].driftRadius == bf.tubes[i].driftRadius
                  && rows[i].dt == bf.tubes[i].triggerLedge as real - MeanTrigger(bf))
            && SumDt(rows) == 0.0
  {
    SumDtOffsets(BundleRows(bf, trackId), bf.tubes, MeanTrigger(bf));
  }

  /** The two loops of lines 373-395 for one map entry. */
  method EmitBundle(bf: BestFit, trackId: int) returns (rows: seq<SavedHit>)
    requires Emittable(bf)
    ensures rows == BundleRows(bf, trackId)
  {
    var tavg := 0.0;
    for i := 0 to 6
      invariant tavg == TriggerSum(bf.tubes[..i]) as real
    {
      assert bf.tubes[..i + 1][..i] == bf.tubes[..i];
      tavg := tavg + bf.tubes[i].triggerLedge as real;
    }
    assert bf.tubes[..6] == bf.tubes;
    tavg := tavg / 6.0;
    rows := [];
    for i := 0 to 6
      invariant |rows| == i
      invariant forall k :: 0 <= k < i ==> rows[k] == SavedRow(bf, trackId, k, MeanTrigger(bf))
    {
      var ph := bf.tubes[i];
      var sh := SavedHit(trackId, ph.tdcId, ph.chnlId, ph.eventId, ph.triggerLedge, ph.adcTime, ph.driftTime, ph.corrTime,
                         ph.triggerLedge as real - tavg, bf.xs[i], bf.ys[i], ph.driftRadius, bf.residuals[i],
                         bf.line.a, bf.line.b, bf.line.c, bf.chi2ndf);
      rows := rows + [sh];
    }
  }

  // ---------------------------------------------------------------------------
  // A sequence of bundles
  // ---------------------------------------------------------------------------

  predicate AllEmittable(fits: seq<BestFit>) {
    forall j :: 0 <= j < |fits| ==> Emittable(fits[j])
  }

  /** The rows of fits emitted in order with track ids id0, id0+1, ... */
  function EmittedRows(fits: seq<BestFit>, id0: int): (rows: seq<SavedHit>)
    requires AllEmittable(fits)
    ensures |rows| == 6 * |fits|
  {
    if fits == [] then []
    else EmittedRows(fits[..|fits| - 1], id0) + BundleRows(fits[|fits| - 1], id0 + |fits| - 1)
  }

  /** Row r is row r%6 of bundle r/6, whose track id is id0 + r/6: six consecutive rows
      per bundle, and ids rising by one per bundle. */
  lemma {:induction false} EmittedRowsBlocks(fits: seq<BestFit>, id0: int)
    requires AllEmittable(fits)
    ensures forall r :: 0 <= r < 6 * |fits| ==>
              EmittedRows(fits, id0)[r] == BundleRows(fits[r / 6], id0 + r / 6)[r % 6]
  {
    if fits != [] {
      var n := |fits| - 1;
      var init := fits[..n];
      EmittedRowsBlocks(init, id0);
      forall r | 0 <= r < 6 * |fits|
        ensures EmittedRows(fits, id0)[r] == BundleRows(fits[r / 6], id0 + r / 6)[r % 6]
      {
        if r < 6 * n {
          assert r / 6 < n;
          assert fits[r / 6] == init[r / 6];
        } else {
          assert r / 6 == n;
        }
      }
    }
  }

  lemma {:induction false} EmittedRowsAppend(a: seq<BestFit>, b: seq<BestFit>, id0: int)
    requires AllEmittable(a) && AllEmittable(b)
    ensures AllEmittable(a + b)
    ensures EmittedRows(a + b, id0) == EmittedRows(a, id0) + EmittedRows(b, id0 + |a|)
    decreases |b|
  {
    if b == [] {
      assert a + b == a;
    } else {
      var n := |b| - 1;
      assert (a + b)[..|a + b| - 1] == a + b[..n];
      assert (a + b)[|a + b| - 1] == b[n];
      EmittedRowsAppend(a, b[..n], id0);
    }
  }

  // ---------------------------------------------------------------------------
  // Emitting a window's map (lines 369-399)
  // ---------------------------------------------------------------------------

  /** The values of a map in the given key order: the fits of a window's map, the groups
      of tracks_by_id or the retained bundles, as their loops visit them. */
  function ValuesInOrder<K, V>(m: map<K, V>, order: seq<K>): (vs: seq<V>)
    requires forall j :: 0 <= j < |order| ==> order[j] in m
    ensures |vs| == |order|
  {
    seq(|order|, j requires 0 <= j < |order| => m[order[j]])
  }

  /** order lists every key of the map exactly once. */
  predicate Enumerates<K, V>(order: seq<K>, m: map<K, V>) {
    && (forall k :: k in m ==> k in order)
    && (forall j :: 0 <= j < |order| ==> order[j] in m)
    && (forall i, j :: 0 <= i < j < |order| ==> order[i] != order[j])
  }

  lemma FitsInOrderSnoc(best: BestMap, order: seq<TopKey>, k: TopKey, id0: int)
    requires forall j :: 0 <= j < |order| ==> order[j] in best
    requires k in best && forall k' :: k' in best ==> Emittable(best[k'])
    ensures AllEmittable(ValuesInOrder(best, order)) && AllEmittable(ValuesInOrder(best, order + [k]))
    ensures EmittedRows(ValuesInOrder(best, order + [k]), id0)
            == EmittedRows(ValuesInOrder(best, order), id0) + BundleRows(best[k], id0 + |order|)
  {
    var f := ValuesInOrder(best, order + [k]);
    assert f[..|order|] == ValuesInOrder(best, order);
    assert f[|order|] == best[k];
  }

  /** One step of the saving loop: the rows so far, then the bundle of key k under the next
      track id, are the rows of the fits in the extended order. */
  lemma EmitStep(best: BestMap, order: seq<TopKey>, k: TopKey, id0: int, rows: seq<SavedHit>, bundle: seq<SavedHit>)
    requires forall j :: 0 <= j < |order| ==> order[j] in best
    requires k in best && forall k' :: k' in best ==> Emittable(best[k'])
    requires rows == EmittedRows(ValuesInOrder(best, order), id0)
    requires bundle == BundleRows(best[k], id0 + |order|)
    ensures AllEmittable(ValuesInOrder(best, order + [k]))
    ensures rows + bundle == EmittedRows(ValuesInOrder(best, order + [k]), id0)
  {
    FitsInOrderSnoc(best, order, k, id0);
  }

  /** Loop bookkeeping of the saving loop: the keys already saved, in order, and the keys
      still to be saved partition the map's keys. */
  predicate Partitions<K, V>(best: map<K, V>, remaining: set<K>, order: seq<K>) {
    && remaining <= best.Keys
    && (forall k :: k in best ==> (k in remaining <==> k !in order))
    && (forall i, j :: 0 <= i < j < |order| ==> order[i] != order[j])
    && (forall j :: 0 <= j < |order| ==> order[j] in best)
    && |remaining| + |order| == |best|
  }

  lemma PartitionsStep<K, V>(best: map<K, V>, remaining: set<K>, order: seq<K>, k: K)
    requires Partitions(best, remaining, order) && k in remaining
    ensures Partitions(best, remaining - {k}, order + [k])
  {
    var o := order + [k];
    forall i, j | 0 <= i < j < |o| ensures o[i] != o[j] {
      if j == |order| { assert o[i] == order[i]; assert order[i] in order; }
    }
    forall k' | k' in best ensures (k' in remaining - {k} <==> k' !in o) {
      assert k' in o <==> k' in order || k' == k;
    }
  }

  lemma PartitionsDone<K, V>(best: map<K, V>, order: seq<K>)
    requires Partitions(best, {}, order)
    ensures Enumerates(order, best) && |order| == |best|
  {
  }

  /** The saving loop over one window's map, in the map's (unspecified) iteration order:
      the rows of its fits in that order, with track ids from trackId0 on. */
  method EmitWindow(best: BestMap, trackId0: int) returns (rows: seq<SavedHit>, trackId: int, ghost order: seq<TopKey>)
    requires forall k :: k in best ==> Emittable(best[k])
    ensures Enumerates(order, best) && |order| == |best|
    ensures trackId == trackId0 + |best|
    ensures AllEmittable(ValuesInOrder(best, order))
    ensures rows == EmittedRows(ValuesInOrder(best, order), trackId0)
  {
    rows, trackId, order := [], trackId0, [];
    var remaining := best.Keys;
    assert |remaining| == |best|;
    var saved := 0;
    while remaining != {}
      invariant Partitions(best, remaining, order)
      invariant trackId == trackId0 + |order| && saved == |order|
      invariant AllEmittable(ValuesInOrder(best, order))
      invariant rows == EmittedRows(ValuesInOrder(best, order), trackId0)
      decreases |remaining|
    {
      var k :| k in remaining;
      var bundle := EmitBundle(best[k], trackId);
      EmitStep(best, order, k, trackId0, rows, bundle);
      assert Partitions(best, remaining - {k}, order + [k]) by {
        PartitionsStep(best, remaining, order, k);
      }
      rows := rows + bundle;
      order := order + [k];
      remaining := remaining - {k};
      trackId := trackId + 1;
      saved := saved + 1;
    }
    PartitionsDone(best, order);
  }
}
