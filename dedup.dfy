/** The final global deduplication (muon_tracker_fixed.cpp, lines 403-470): rows are
    regrouped into bundles by track id, each six-row bundle is keyed on its first highest
    hit, and one bundle of least chi2/ndf is kept per key. */
module Dedup {
  import opened Hits
  import opened Bundles

  // ---------------------------------------------------------------------------
  // Grouping by track id (lines 417-420)
  // ---------------------------------------------------------------------------

  /** The rows of track id, in row order. */
  function RowsOf(rows: seq<SavedHit>, id: int): (r: seq<SavedHit>)
    ensures |r| <= |rows|
    ensures forall k :: 0 <= k < |r| ==> r[k].trackId == id
  {
    if rows == [] then []
    else
      var init := RowsOf(rows[..|rows| - 1], id);
      var h := rows[|rows| - 1];
      if h.trackId == id then init + [h] else init
  }

  /** The rows of a track are rows of the table, and there are none exactly when no row
      carries its id. */
  lemma {:induction false} RowsOfFilters(rows: seq<SavedHit>, id: int)
    ensures forall k :: 0 <= k < |RowsOf(rows, id)| ==> RowsOf(rows, id)[k] in rows
    ensures RowsOf(rows, id) == [] <==> forall i :: 0 <= i < |rows| ==> rows[i].trackId != id
  {
    if rows != [] {
      var init := rows[..|rows| - 1];
      RowsOfFilters(init, id);
      forall k | 0 <= k < |RowsOf(init, id)| ensures RowsOf(init, id)[k] in rows {
        assert RowsOf(init, id)[k] in init;
      }
      if RowsOf(init, id) != [] {
        var i :| 0 <= i < |init| && init[i].trackId == id;
        assert rows[i] == init[i];
      }
    }
  }

  lemma RowsOfSnoc(rows: seq<SavedHit>, h: SavedHit, id: int)
    ensures RowsOf(rows + [h], id) == RowsOf(rows, id) + (if h.trackId == id then [h] else [])
  {
    assert (rows + [h])[..|rows|] == rows;
  }

  /** tracks_by_id. */
  type Groups = map<int, seq<SavedHit>>

  /** g holds, for every track id occurring in rows, exactly that track's rows. */
  ghost predicate GroupsOf(g: Groups, rows: seq<SavedHit>) {
    && (forall id :: id in g <==> exists i :: 0 <= i < |rows| && rows[i].trackId == id)
    && (forall id :: id in g ==> g[id] == RowsOf(rows, id))
  }

  lemma GroupsOfSnoc(g: Groups, rows: seq<SavedHit>, h: SavedHit)
    requires GroupsOf(g, rows)
    ensures GroupsOf(g[h.trackId := (if h.trackId in g then g[h.trackId] else []) + [h]], rows + [h])
  {
    var g' := g[h.trackId := (if h.trackId in g then g[h.trackId] else []) + [h]];
    var rs := rows + [h];
    RowsOfFilters(rows, h.trackId);
    forall id ensures RowsOf(rs, id) == RowsOf(rows, id) + (if h.trackId == id then [h] else []) {
      RowsOfSnoc(rows, h, id);
    }
    forall id ensures id in g' <==> exists i :: 0 <= i < |rs| && rs[i].trackId == id {
      if id in g && id != h.trackId {
        var i :| 0 <= i < |rows| && rows[i].trackId == id;
        assert rs[i] == rows[i];
      }
      if id !in g' {
        forall i | 0 <= i < |rs| ensures rs[i].trackId != id {
          if i < |rows| { assert rs[i] == rows[i]; }
        }
      }
      if id == h.trackId { assert rs[|rows|] == h; }
    }
  }

  /** The grouping loop of lines 417-420. */
  method GroupById(rows: seq<SavedHit>) returns (g: Groups)
    ensures GroupsOf(g, rows)
  {
    g := map[];
    for i := 0 to |rows|
      invariant GroupsOf(g, rows[..i])
    {
      var h := rows[i];
      assert rows[..i + 1] == rows[..i] + [h];
      GroupsOfSnoc(g, rows[..i], h);
      var hits := if h.trackId in g then g[h.trackId] else [];
      g := g[h.trackId := hits + [h]];
    }
    assert rows[..|rows|] == rows;
  }

  // ---------------------------------------------------------------------------
  // The top hit of a bundle (lines 432-442)
  // ---------------------------------------------------------------------------

  /** The first hit of greatest y. */
  function TopIndex(hits: seq<SavedHit>): (i: int)
    requires hits != []
    ensures 0 <= i < |hits|
    ensures forall j :: 0 <= j < |hits| ==> hits[j].y <= hits[i].y
    ensures forall j :: 0 <= j < i ==> hits[j].y < hits[i].y
  {
    if |hits| == 1 then 0
    else
      var i := TopIndex(hits[..|hits| - 1]);
      if hits[|hits| - 1].y > hits[i].y then |hits| - 1 else i
  }

  /** The arg-max loop of lines 434-436. */
  method TopHit(hits: seq<SavedHit>) returns (top: int)
    requires hits != []
    ensures top == TopIndex(hits)
  {
    top := 0;
    for i := 0 to |hits|
      invariant i == 0 ==> top == 0
      invariant i > 0 ==> top == TopIndex(hits[..i])
    {
      if i > 0 {
        assert hits[..i + 1][..i] == hits[..i];
      } else {
        assert hits[..1] == [hits[0]];
      }
      if hits[i].y > hits[top].y {
        top := i;
      }
    }
    assert hits[..|hits|] == hits;
  }

  /** The canonical key of a bundle: that of its top hit. */
  function BundleKey(hits: seq<SavedHit>): TopKey
    requires hits != []
  {
    SavedKeyOf(hits[TopIndex(hits)])
  }

  // ---------------------------------------------------------------------------
  // Selecting one bundle per key (lines 422-455)
  // ---------------------------------------------------------------------------

  /** best_global_top: key -> retained bundle. The program also stores each bundle's
      chi2/ndf, which is that of its first row. */
  type Kept = map<TopKey, seq<SavedHit>>

  predicate Sixes(m: Kept) {
    forall k :: k in m ==> |m[k]| == 6
  }

  /** One bundle offered: a six-row bundle enters when its key is absent or it has strictly
      smaller chi2/ndf than the retained one. */
  function OfferBundle(m: Kept, b: seq<SavedHit>): (r: Kept)
    requires Sixes(m)
    ensures Sixes(r)
  {
    if |b| != 6 then m
    else
      var k := BundleKey(b);
      if k !in m || b[0].chi2ndf < m[k][0].chi2ndf then m[k := b] else m
  }

  function FoldBundles(m: Kept, bs: seq<seq<SavedHit>>): (r: Kept)
    requires Sixes(m)
    ensures Sixes(r)
  {
    if bs == [] then m else OfferBundle(FoldBundles(m, bs[..|bs| - 1]), bs[|bs| - 1])
  }

  /** A bundle that takes part in the selection. */
  predicate Eligible(b: seq<SavedHit>) {
    |b| == 6
  }

  /** The retained keys are exactly the keys of the six-row bundles. */
  lemma {:induction false} FoldBundlesKeys(bs: seq<seq<SavedHit>>)
    ensures forall k :: k in FoldBundles(map[], bs) <==>
              exists j :: 0 <= j < |bs| && Eligible(bs[j]) && BundleKey(bs[j]) == k
  {
    if bs != [] {
      var init, last := bs[..|bs| - 1], bs[|bs| - 1];
      FoldBundlesKeys(init);
      var m0 := FoldBundles(map[], init);
      assert forall j :: 0 <= j < |init| ==> bs[j] == init[j];
      forall k
        ensures (exists j :: 0 <= j < |bs| && Eligible(bs[j]) && BundleKey(bs[j]) == k)
                <==> (k in m0 || (Eligible(last) && BundleKey(last) == k))
      {
        if exists j :: 0 <= j < |bs| && Eligible(bs[j]) && BundleKey(bs[j]) == k {
          var j :| 0 <= j < |bs| && Eligible(bs[j]) && BundleKey(bs[j]) == k;
          if j < |init| {
            assert Eligible(init[j]) && BundleKey(init[j]) == k;
          }
        }
        if k in m0 {
          var j :| 0 <= j < |init| && Eligible(init[j]) && BundleKey(init[j]) == k;
          assert Eligible(bs[j]) && BundleKey(bs[j]) == k;
        }
        if Eligible(last) && BundleKey(last) == k {
          assert Eligible(bs[|init|]) && BundleKey(bs[|init|]) == k;
        }
      }
    }
  }

  /** Each retained bundle is one of the offered six-row bundles with its key, and none of
      those has smaller chi2/ndf. */
  lemma {:induction false} FoldBundlesBest(bs: seq<seq<SavedHit>>)
    ensures forall k :: k in FoldBundles(map[], bs) ==>
              && FoldBundles(map[], bs)[k] in bs
              && Eligible(FoldBundles(map[], bs)[k]) && BundleKey(FoldBundles(map[], bs)[k]) == k
              && forall j :: 0 <= j < |bs| && Eligible(bs[j]) && BundleKey(bs[j]) == k ==>
                   FoldBundles(map[], bs)[k][0].chi2ndf <= bs[j][0].chi2ndf
  {
    if bs != [] {
      var init, last := bs[..|bs| - 1], bs[|bs| - 1];
      FoldBundlesBest(init);
      FoldBundlesKeys(init);
      var m0 := FoldBundles(map[], init);
      var m := FoldBundles(map[], bs);
      assert bs == init + [last];
      forall k | k in m
        ensures m[k] in bs && Eligible(m[k]) && BundleKey(m[k]) == k
        ensures forall j :: 0 <= j < |bs| && Eligible(bs[j]) && BundleKey(bs[j]) == k ==> m[k][0].chi2ndf <= bs[j][0].chi2ndf
      {
        forall j | 0 <= j < |bs| && Eligible(bs[j]) && BundleKey(bs[j]) == k
          ensures m[k][0].chi2ndf <= bs[j][0].chi2ndf
        {
          if j < |init| {
            assert bs[j] == init[j];
            assert k in m0;
          } else {
            assert bs[j] == last;
          }
        }
      }
    }
  }

  lemma GroupsInOrderSnoc(g: Groups, order: seq<int>, tid: int)
    requires forall j :: 0 <= j < |order| ==> order[j] in g
    requires tid in g
    ensures FoldBundles(map[], ValuesInOrder(g, order + [tid]))
            == OfferBundle(FoldBundles(map[], ValuesInOrder(g, order)), g[tid])
  {
    var bs := ValuesInOrder(g, order + [tid]);
    assert bs[..|order|] == ValuesInOrder(g, order) && bs[|order|] == g[tid];
  }

  /** The body of the selection loop for one track (lines 426-454). */
  method OfferTrack(best: Kept, bundle: seq<SavedHit>) returns (r: Kept)
    requires Sixes(best)
    ensures r == OfferBundle(best, bundle)
  {
    r := best;
    if |bundle| == 6 {
      var top := TopHit(bundle);
      var key := SavedKeyOf(bundle[top]);
      var chi2ndf := bundle[0].chi2ndf;
      if key !in best || chi2ndf < best[key][0].chi2ndf {
        r := best[key := bundle];
      }
    }
  }

  /** The selection loop of lines 425-455, in the (unspecified) iteration order of
      tracks_by_id. */
  method SelectBest(g: Groups) returns (best: Kept, ghost order: seq<int>)
    ensures Enumerates(order, g)
    ensures best == FoldBundles(map[], ValuesInOrder(g, order))
    ensures Sixes(best)
    ensures forall k :: k in best <==> exists id :: id in g && Eligible(g[id]) && BundleKey(g[id]) == k
  {
    best, order := map[], [];
    var remaining := g.Items;
    while remaining != {}
      invariant remaining <= g.Items
      invariant forall id :: id in g ==> ((id, g[id]) in remaining <==> id !in order)
      invariant forall i, j :: 0 <= i < j < |order| ==> order[i] != order[j]
      invariant forall j :: 0 <= j < |order| ==> order[j] in g
      invariant best == FoldBundles(map[], ValuesInOrder(g, order))
      decreases |remaining|
    {
      var kv :| kv in remaining;
      var tid, bundle := kv.0, kv.1;
      assert tid in g && g[tid] == bundle;
      GroupsInOrderSnoc(g, order, tid);
      best := OfferTrack(best, bundle);
      order := order + [tid];
      remaining := remaining - {kv};
    }
    var bs := ValuesInOrder(g, order);
    FoldBundlesKeys(bs);
    forall k
      ensures k in best <==> exists id :: id in g && Eligible(g[id]) && BundleKey(g[id]) == k
    {
      if k in best {
        var j :| 0 <= j < |bs| && Eligible(bs[j]) && BundleKey(bs[j]) == k;
        assert g[order[j]] == bs[j];
      }
      if exists id :: id in g && Eligible(g[id]) && BundleKey(g[id]) == k {
        var id :| id in g && Eligible(g[id]) && BundleKey(g[id]) == k;
        assert (id, g[id]) in g.Items;
        var j :| 0 <= j < |order| && order[j] == id;
        assert bs[j] == g[id];
      }
    }
  }

  // ---------------------------------------------------------------------------
  // Rebuilding the output (lines 458-469)
  // ---------------------------------------------------------------------------

  function Concat(bs: seq<seq<SavedHit>>): seq<SavedHit> {
    if bs == [] then [] else Concat(bs[..|bs| - 1]) + bs[|bs| - 1]
  }

  lemma {:induction false} ConcatOfSixes(bs: seq<seq<SavedHit>>)
    requires forall j :: 0 <= j < |bs| ==> |bs[j]| == 6
    ensures |Concat(bs)| == 6 * |bs|
  {
    if bs != [] {
      ConcatOfSixes(bs[..|bs| - 1]);
    }
  }

  /** Every row of a concatenation is a row of one of its parts. */
  lemma {:induction false} ConcatMembers(bs: seq<seq<SavedHit>>)
    ensures forall r :: r in Concat(bs) ==> exists j :: 0 <= j < |bs| && r in bs[j]
  {
    if bs != [] {
      var init := bs[..|bs| - 1];
      ConcatMembers(init);
      forall r | r in Concat(bs)
        ensures exists j :: 0 <= j < |bs| && r in bs[j]
      {
        if r in Concat(init) {
          var j :| 0 <= j < |init| && r in init[j];
          assert init[j] == bs[j];
        }
      }
    }
  }

  lemma KeptInOrderSnoc(best: Kept, order: seq<TopKey>, k: TopKey)
    requires forall j :: 0 <= j < |order| ==> order[j] in best
    requires k in best
    ensures Concat(ValuesInOrder(best, order + [k])) == Concat(ValuesInOrder(best, order)) + best[k]
  {
    var bs := ValuesInOrder(best, order + [k]);
    assert bs[..|order|] == ValuesInOrder(best, order) && bs[|order|] == best[k];
  }

  /** The inner copy loop of lines 461-463. */
  method AppendRows(acc: seq<SavedHit>, hits: seq<SavedHit>) returns (r: seq<SavedHit>)
    ensures r == acc + hits
  {
    r := acc;
    for i := 0 to |hits|
      invariant r == acc + hits[..i]
    {
      assert hits[..i + 1] == hits[..i] + [hits[i]];
      r := r + [hits[i]];
    }
    assert hits[..|hits|] == hits;
  }

  /** The rebuilding loop of lines 460-464, in the (unspecified) iteration order of
      best_global_top. */
  method Rebuild(best: Kept) returns (filtered: seq<SavedHit>, ghost order: seq<TopKey>)
    ensures Enumerates(order, best)
    ensures filtered == Concat(ValuesInOrder(best, order))
  {
    filtered, order := [], [];
    var remaining := best.Keys;
    assert |remaining| == |best|;
    while remaining != {}
      invariant Partitions(best, remaining, order)
      invariant filtered == Concat(ValuesInOrder(best, order))
      decreases |remaining|
    {
      var k :| k in remaining;
      KeptInOrderSnoc(best, order, k);
      filtered := AppendRows(filtered, best[k]);
      assert Partitions(best, remaining - {k}, order + [k]) by {
        PartitionsStep(best, remaining, order, k);
      }
      order := order + [k];
      remaining := remaining - {k};
    }
    PartitionsDone(best, order);
  }

  // ---------------------------------------------------------------------------
  // Counting rows of distinct tracks
  // ---------------------------------------------------------------------------

  /** The number of rows whose track id is in ids. */
  function CountIds(rows: seq<SavedHit>, ids: set<int>): (n: nat)
    ensures n <= |rows|
  {
    if rows == [] then 0
    else CountIds(rows[..|rows| - 1], ids) + (if rows[|rows| - 1].trackId in ids then 1 else 0)
  }

  lemma {:induction false} CountIdsAdd(rows: seq<SavedHit>, ids: set<int>, id: int)
    requires id !in ids
    ensures CountIds(rows, ids + {id}) == CountIds(rows, ids) + |RowsOf(rows, id)|
  {
    if rows != [] {
      CountIdsAdd(rows[..|rows| - 1], ids, id);
    }
  }

  /** The bundles of distinct tracks together hold at most the rows there are. */
  lemma {:induction false} DistinctTracksFit(rows: seq<SavedHit>, ids: seq<int>)
    requires forall i, j :: 0 <= i < j < |ids| ==> ids[i] != ids[j]
    ensures |Concat(TrackBundles(rows, ids))| == CountIds(rows, set id | id in ids)
  {
    var bs := TrackBundles(rows, ids);
    if ids == [] {
      assert (set id | id in ids) == {};
      CountIdsNone(rows);
    } else {
      var n := |ids| - 1;
      var init := ids[..n];
      DistinctTracksFit(rows, init);
      var bs0 := TrackBundles(rows, init);
      assert bs[..n] == bs0;
      var s0 := set id | id in init;
      assert ids == init + [ids[n]];
      assert (set id | id in ids) == s0 + {ids[n]};
      assert ids[n] !in s0;
      CountIdsAdd(rows, s0, ids[n]);
    }
  }

  lemma {:induction false} CountIdsNone(rows: seq<SavedHit>)
    ensures CountIds(rows, {}) == 0
  {
    if rows != [] {
      CountIdsNone(rows[..|rows| - 1]);
    }
  }

  /** Distinct tracks with six-row bundles: six rows each, and no more rows than there
      are. */
  lemma KeptSize(rows: seq<SavedHit>, ids: seq<int>)
    requires forall j :: 0 <= j < |ids| ==> |RowsOf(rows, ids[j])| == 6
    requires forall i, j :: 0 <= i < j < |ids| ==> ids[i] != ids[j]
    ensures |Concat(TrackBundles(rows, ids))| == 6 * |ids| <= |rows|
  {
    ConcatOfSixes(TrackBundles(rows, ids));
    DistinctTracksFit(rows, ids);
  }

  // ---------------------------------------------------------------------------
  // The whole pass (lines 406-470)
  // ---------------------------------------------------------------------------

  /** The bundle of track id, when it takes part in the selection. */
  predicate IsInputBundle(rows: seq<SavedHit>, id: int) {
    Eligible(RowsOf(rows, id))
  }

  /** b is the unchanged six-row bundle of track id, and k that bundle's key. */
  ghost predicate TrackOf(rows: seq<SavedHit>, b: seq<SavedHit>, k: TopKey, id: int) {
    IsInputBundle(rows, id) && b == RowsOf(rows, id) && BundleKey(RowsOf(rows, id)) == k
  }

  /** Each bundle the selection over the groups of rows retains, whatever the iteration
      order, is the unchanged six-row bundle of some track, under that bundle's key. */
  lemma SelectionKeepsInputs(rows: seq<SavedHit>, g: Groups, ids: seq<int>, best: Kept)
    requires GroupsOf(g, rows) && Enumerates(ids, g)
    requires best == FoldBundles(map[], ValuesInOrder(g, ids))
    ensures forall k :: k in best ==>
              exists id :: TrackOf(rows, best[k], k, id)
  {
    var bs := ValuesInOrder(g, ids);
    FoldBundlesBest(bs);
    forall k | k in best
      ensures exists id :: TrackOf(rows, best[k], k, id)
    {
      var m :| 0 <= m < |bs| && bs[m] == best[k];
      assert TrackOf(rows, best[k], k, ids[m]);
    }
  }

  /** Whatever the iteration order, the key of every six-row input bundle is retained,
      with a chi2/ndf no larger than that bundle's. */
  lemma SelectionCoversInputs(rows: seq<SavedHit>, g: Groups, ids: seq<int>, best: Kept)
    requires GroupsOf(g, rows) && Enumerates(ids, g)
    requires best == FoldBundles(map[], ValuesInOrder(g, ids))
    ensures forall id :: IsInputBundle(rows, id) ==>
              && BundleKey(RowsOf(rows, id)) in best
              && best[BundleKey(RowsOf(rows, id))][0].chi2ndf <= RowsOf(rows, id)[0].chi2ndf
  {
    var bs := ValuesInOrder(g, ids);
    forall id | IsInputBundle(rows, id)
      ensures BundleKey(RowsOf(rows, id)) in best
      ensures best[BundleKey(RowsOf(rows, id))][0].chi2ndf <= RowsOf(rows, id)[0].chi2ndf
    {
      var m := GroupPosition(rows, g, ids, id);
      assert bs[m] == RowsOf(rows, id);
      FoldBundlesKeys(bs);
      FoldBundlesBest(bs);
    }
  }

  /** Where a track with rows occurs in an enumeration of the groups. */
  lemma GroupPosition(rows: seq<SavedHit>, g: Groups, ids: seq<int>, id: int) returns (m: int)
    requires GroupsOf(g, rows) && Enumerates(ids, g)
    requires RowsOf(rows, id) != []
    ensures 0 <= m < |ids| && ids[m] == id && g[id] == RowsOf(rows, id)
  {
    RowsOfFilters(rows, id);
    var i :| 0 <= i < |rows| && rows[i].trackId == id;
    assert id in g;
    m :| 0 <= m < |ids| && ids[m] == id;
  }

  /** best is a selection over the bundles of rows: its entries are unchanged six-row
      input bundles under their own keys, and every input key is present with a chi2/ndf
      no larger than that of any input bundle with the key. */
  ghost predicate SelectedFrom(rows: seq<SavedHit>, best: Kept) {
    && Sixes(best)
    && (forall k :: k in best ==> exists id :: TrackOf(rows, best[k], k, id))
    && (forall id :: IsInputBundle(rows, id) ==>
          && BundleKey(RowsOf(rows, id)) in best
          && best[BundleKey(RowsOf(rows, id))][0].chi2ndf <= RowsOf(rows, id)[0].chi2ndf)
  }

  /** Grouping and selection (lines 417-455). */
  method SelectFromRows(rows: seq<SavedHit>) returns (best: Kept)
    ensures SelectedFrom(rows, best)
  {
    var g := GroupById(rows);
    ghost var order;
    best, order := SelectBest(g);
    SelectionKeepsInputs(rows, g, order, best);
    SelectionCoversInputs(rows, g, order, best);
  }

  /** The bundles of the given tracks, in order. */
  function TrackBundles(rows: seq<SavedHit>, ids: seq<int>): (bs: seq<seq<SavedHit>>)
    ensures |bs| == |ids|
  {
    seq(|ids|, j requires 0 <= j < |ids| => RowsOf(rows, ids[j]))
  }

  /** The bundles of tracks hold only rows of the table. */
  lemma TrackRowsAreInputs(rows: seq<SavedHit>, ids: seq<int>)
    ensures forall r :: r in Concat(TrackBundles(rows, ids)) ==> r in rows
  {
    ConcatMembers(TrackBundles(rows, ids));
    forall r | r in Concat(TrackBundles(rows, ids))
      ensures r in rows
    {
      var j :| 0 <= j < |ids| && r in TrackBundles(rows, ids)[j];
      RowsOfFilters(rows, ids[j]);
    }
  }

  /** Tracks listed once each, with six-row bundles of pairwise distinct keys. */
  ghost predicate DistinctlyKeyed(rows: seq<SavedHit>, ids: seq<int>) {
    && (forall j :: 0 <= j < |ids| ==> IsInputBundle(rows, ids[j]))
    && (forall i, j :: 0 <= i < j < |ids| ==> ids[i] != ids[j])
    && (forall i, j :: 0 <= i < j < |ids| && IsInputBundle(rows, ids[i]) && IsInputBundle(rows, ids[j]) ==>
          BundleKey(RowsOf(rows, ids[i])) != BundleKey(RowsOf(rows, ids[j])))
  }

  /** The tracks behind the rebuilt map entries, in rebuilding order. */
  lemma TracksOfKept(rows: seq<SavedHit>, best: Kept, keys: seq<TopKey>) returns (ids: seq<int>)
    requires Enumerates(keys, best)
    requires forall k :: k in best ==>
               exists id :: TrackOf(rows, best[k], k, id)
    ensures TrackBundles(rows, ids) == ValuesInOrder(best, keys)
    ensures DistinctlyKeyed(rows, ids)
    ensures forall j :: 0 <= j < |ids| ==> IsInputBundle(rows, ids[j]) && BundleKey(RowsOf(rows, ids[j])) == keys[j]
  {
    ids := [];
    for j := 0 to |keys|
      invariant |ids| == j
      invariant forall i :: 0 <= i < j ==> TrackOf(rows, best[keys[i]], keys[i], ids[i])
    {
      var id :| TrackOf(rows, best[keys[j]], keys[j], id);
      ids := ids + [id];
    }
    assert TrackBundles(rows, ids) == ValuesInOrder(best, keys);
    forall i, j | 0 <= i < j < |ids| ensures ids[i] != ids[j] {
      assert keys[i] != keys[j];
    }
  }

  /** Every key of a six-row input bundle is the key of one of the tracks ids. */
  ghost predicate CoversInputs(rows: seq<SavedHit>, ids: seq<int>) {
    forall id :: IsInputBundle(rows, id) ==>
      exists j :: 0 <= j < |ids| && IsInputBundle(rows, ids[j])
        && BundleKey(RowsOf(rows, ids[j])) == BundleKey(RowsOf(rows, id))
  }

  /** The bundle of each of the tracks ids has the least chi2/ndf among the six-row input
      bundles with its key. */
  ghost predicate KeepsLeast(rows: seq<SavedHit>, ids: seq<int>) {
    forall j, id ::
      (0 <= j < |ids| && IsInputBundle(rows, ids[j]) && IsInputBundle(rows, id)
       && BundleKey(RowsOf(rows, id)) == BundleKey(RowsOf(rows, ids[j]))) ==>
        RowsOf(rows, ids[j])[0].chi2ndf <= RowsOf(rows, id)[0].chi2ndf
  }

  /** Every input key is that of a rebuilt entry. */
  lemma KeptCovers(rows: seq<SavedHit>, best: Kept, keys: seq<TopKey>, ids: seq<int>)
    requires Enumerates(keys, best) && |ids| == |keys|
    requires forall j :: 0 <= j < |ids| ==> IsInputBundle(rows, ids[j]) && BundleKey(RowsOf(rows, ids[j])) == keys[j]
    requires forall id :: IsInputBundle(rows, id) ==> BundleKey(RowsOf(rows, id)) in best
    ensures CoversInputs(rows, ids)
  {
    forall id | IsInputBundle(rows, id)
      ensures exists j :: 0 <= j < |ids| && IsInputBundle(rows, ids[j])
                && BundleKey(RowsOf(rows, ids[j])) == BundleKey(RowsOf(rows, id))
    {
      var j :| 0 <= j < |keys| && keys[j] == BundleKey(RowsOf(rows, id));
      assert BundleKey(RowsOf(rows, ids[j])) == keys[j];
    }
  }

  /** A retained bundle has the least chi2/ndf among the six-row input bundles with its
      key. */
  lemma KeptIsMinimal(rows: seq<SavedHit>, best: Kept, keys: seq<TopKey>, ids: seq<int>)
    requires Sixes(best) && Enumerates(keys, best)
    requires TrackBundles(rows, ids) == ValuesInOrder(best, keys)
    requires forall j :: 0 <= j < |ids| ==> IsInputBundle(rows, ids[j]) && BundleKey(RowsOf(rows, ids[j])) == keys[j]
    requires forall id :: IsInputBundle(rows, id) ==>
               && BundleKey(RowsOf(rows, id)) in best
               && best[BundleKey(RowsOf(rows, id))][0].chi2ndf <= RowsOf(rows, id)[0].chi2ndf
    ensures KeepsLeast(rows, ids)
  {
    forall j, id |
        0 <= j < |ids| && IsInputBundle(rows, ids[j]) && IsInputBundle(rows, id)
        && BundleKey(RowsOf(rows, id)) == BundleKey(RowsOf(rows, ids[j]))
      ensures RowsOf(rows, ids[j])[0].chi2ndf <= RowsOf(rows, id)[0].chi2ndf
    {
      assert TrackBundles(rows, ids)[j] == ValuesInOrder(best, keys)[j];
    }
  }

  /** The global deduplication. Its result is the concatenation of unchanged input
      bundles of distinct tracks, six rows each, no two of which share a key; every key of
      an input bundle is represented; and each retained bundle has the least chi2/ndf
      among the input bundles with its key. */
  method GlobalDedup(rows: seq<SavedHit>) returns (filtered: seq<SavedHit>, ghost keptIds: seq<int>)
    ensures filtered == Concat(TrackBundles(rows, keptIds))
    ensures DistinctlyKeyed(rows, keptIds)
    ensures CoversInputs(rows, keptIds)
    ensures KeepsLeast(rows, keptIds)
    ensures |filtered| == 6 * |keptIds| <= |rows|
    ensures forall r :: r in filtered ==> r in rows
  {
    var best := SelectFromRows(rows);
    ghost var keys;
    filtered, keys := Rebuild(best);
    keptIds := TracksOfKept(rows, best, keys);
    assert CoversInputs(rows, keptIds) by {
      KeptCovers(rows, best, keys, keptIds);
    }
    assert KeepsLeast(rows, keptIds) by {
      KeptIsMinimal(rows, best, keys, keptIds);
    }
    KeptSize(rows, keptIds);
    assert forall r :: r in filtered ==> r in rows by {
      TrackRowsAreInputs(rows, keptIds);
    }
  }
}
