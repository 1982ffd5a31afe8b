/** The trigger range, the time windows and the per-window hit index
    (muon_tracker_fixed.cpp, lines 228-260). */
module Windowing {
  import opened Hits

  /** WINDOW_SIZE: the width of a trigger window. */
  const WindowSize: int := 2000

  // ---------------------------------------------------------------------------
  // Trigger range (lines 229-237)
  // ---------------------------------------------------------------------------

  /** The running minimum of lines 229-233, starting from INT_MAX. */
  function MinTrigger(hits: seq<Hit>): (m: int)
    ensures hits == [] ==> m == INT_MAX
    ensures forall i :: 0 <= i < |hits| ==> m <= hits[i].triggerLedge
    ensures hits != [] ==> exists i :: 0 <= i < |hits| && m == hits[i].triggerLedge
  {
    if hits == [] then INT_MAX
    else
      var m := MinTrigger(hits[..|hits| - 1]);
      var t := hits[|hits| - 1].triggerLedge;
      if t < m then t else m
  }

  /** The running maximum, starting from INT_MIN. */
  function MaxTrigger(hits: seq<Hit>): (m: int)
    ensures hits == [] ==> m == INT_MIN
    ensures forall i :: 0 <= i < |hits| ==> hits[i].triggerLedge <= m
    ensures hits != [] ==> exists i :: 0 <= i < |hits| && m == hits[i].triggerLedge
  {
    if hits == [] then INT_MIN
    else
      var m := MaxTrigger(hits[..|hits| - 1]);
      var t := hits[|hits| - 1].triggerLedge;
      if t > m then t else m
  }

  /** The loop of lines 229-233. */
  method TriggerRange(hits: seq<Hit>) returns (tmin: int, tmax: int)
    ensures tmin == MinTrigger(hits) && tmax == MaxTrigger(hits)
  {
    tmin, tmax := INT_MAX, INT_MIN;
    var i := 0;
    while i < |hits|
      invariant 0 <= i <= |hits|
      invariant tmin == MinTrigger(hits[..i]) && tmax == MaxTrigger(hits[..i])
    {
      assert hits[..i + 1][..i] == hits[..i];
      var t := hits[i].triggerLedge;
      tmin := if t < tmin then t else tmin;
      tmax := if t > tmax then t else tmax;
      i := i + 1;
    }
    assert hits[..i] == hits;
  }

  /** The emptiness test of line 234 as written: the minimum is still INT_MAX. */
  predicate NoHitsAsWritten(hits: seq<Hit>) {
    MinTrigger(hits) == INT_MAX
  }

  /** As written, a table whose every hit has triggerledge INT_MAX is reported as having
      no hits at all. */
  lemma NoHitsAsWrittenMisfires(h: Hit)
    requires h.triggerLedge == INT_MAX
    ensures NoHitsAsWritten([h]) && [h] != []
  {
  }

  /** The corrected test asks whether any hit was loaded; when one was, the range is a
      genuine range spanned by two of the hits. */
  lemma RangeOfLoadedHits(hits: seq<Hit>)
    requires hits != []
    ensures MinTrigger(hits) <= MaxTrigger(hits)
    ensures (exists i :: 0 <= i < |hits| && MinTrigger(hits) == hits[i].triggerLedge)
         && (exists j :: 0 <= j < |hits| && MaxTrigger(hits) == hits[j].triggerLedge)
  {
    assert MinTrigger(hits) <= hits[0].triggerLedge <= MaxTrigger(hits);
  }

  // ---------------------------------------------------------------------------
  // Window starts (lines 244-245)
  // ---------------------------------------------------------------------------

  /** starts holds trigger_min + k*WINDOW_SIZE for exactly the k whose start is at most
      trigger_max. */
  predicate IsWindowStarts(starts: seq<int>, tmin: int, tmax: int) {
    && (forall k :: 0 <= k < |starts| ==> starts[k] == tmin + k * WindowSize && starts[k] <= tmax)
    && tmin + |starts| * WindowSize > tmax
  }

  /** The window-start loop, with the start computed without overflow. */
  method WindowStarts(tmin: int, tmax: int) returns (starts: seq<int>)
    ensures IsWindowStarts(starts, tmin, tmax)
  {
    starts := [];
    var w := tmin;
    while w <= tmax
      invariant w == tmin + |starts| * WindowSize
      invariant forall k :: 0 <= k < |starts| ==> starts[k] == tmin + k * WindowSize && starts[k] <= tmax
      decreases tmax - w
    {
      starts := starts + [w];
      w := w + WindowSize;
    }
  }

  /** Every trigger value of the range lies in exactly one half-open window
      [start, start + WINDOW_SIZE). */
  lemma ExactlyOneWindow(starts: seq<int>, tmin: int, tmax: int, t: int)
    requires IsWindowStarts(starts, tmin, tmax)
    requires tmin <= t <= tmax
    ensures exists k :: 0 <= k < |starts| && starts[k] <= t < starts[k] + WindowSize
    ensures forall k1, k2 ::
              (0 <= k1 < |starts| && 0 <= k2 < |starts|
               && starts[k1] <= t < starts[k1] + WindowSize
               && starts[k2] <= t < starts[k2] + WindowSize) ==> k1 == k2
  {
    var k := (t - tmin) / WindowSize;
    assert tmin + k * WindowSize <= t < tmin + (k + 1) * WindowSize;
    assert k < |starts|;
    assert starts[k] <= t < starts[k] + WindowSize;
  }

  /** `w + WINDOW_SIZE` on a 32-bit int as the hardware computes it: two's-complement
      wrap-around (the C++ standard leaves signed overflow undefined). */
  function Wrap32(x: int): Int32 {
    ((x - INT_MIN) % 0x1_0000_0000 + INT_MIN) as Int32
  }

  /** The loop step of line 245 as written: `w += WINDOW_SIZE` on an int. */
  function NextStartAsWritten(w: Int32): Int32 {
    Wrap32(w + WindowSize)
  }

  /** As written, when trigger_max is near INT_MAX the start wraps round: for a range from
      INT_MAX-1999 to INT_MAX the second start is INT_MIN, which passes the guard
      `w <= trigger_max` and lies below every hit; and with trigger_max == INT_MAX no
      32-bit start ever fails the guard, so the loop never ends. */
  lemma WindowStartsAsWrittenWrap()
    ensures var tmin, tmax := INT_MAX - 1999, INT_MAX;
            && tmin <= tmax
            && NextStartAsWritten(tmin) == INT_MIN
            && NextStartAsWritten(tmin) <= tmax
            && NextStartAsWritten(tmin) < tmin
            && forall w: Int32 :: NextStartAsWritten(w) <= tmax
  {
  }

  // ---------------------------------------------------------------------------
  // Window contents and the per-window index (lines 251-260)
  // ---------------------------------------------------------------------------

  /** The hits with w0 <= triggerledge < w1, in load order. */
  function InWindow(hits: seq<Hit>, w0: int, w1: int): (r: seq<Hit>)
    ensures |r| <= |hits|
    ensures forall k :: 0 <= k < |r| ==> w0 <= r[k].triggerLedge < w1
    ensures forall i :: 0 <= i < |hits| && w0 <= hits[i].triggerLedge < w1 ==> hits[i] in r
    ensures forall k :: 0 <= k < |r| ==> r[k] in hits
  {
    if hits == [] then []
    else
      var init := InWindow(hits[..|hits| - 1], w0, w1);
      var h := hits[|hits| - 1];
      if w0 <= h.triggerLedge < w1 then init + [h] else init
  }

  /** The filtering loop of line 253. */
  method WindowHits(hits: seq<Hit>, w0: int, w1: int) returns (wh: seq<Hit>)
    ensures wh == InWindow(hits, w0, w1)
  {
    wh := [];
    var i := 0;
    while i < |hits|
      invariant 0 <= i <= |hits|
      invariant wh == InWindow(hits[..i], w0, w1)
    {
      assert hits[..i + 1][..i] == hits[..i];
      if hits[i].triggerLedge >= w0 && hits[i].triggerLedge < w1 {
        wh := wh + [hits[i]];
      }
      i := i + 1;
    }
    assert hits[..i] == hits;
  }

  /** The hits of the window on channel c of module t, in window order. */
  function Occupants(wh: seq<Hit>, t: int, c: int): (r: seq<Hit>)
    ensures forall k :: 0 <= k < |r| ==> r[k].tdcId == t && r[k].chnlId == c && r[k] in wh
    ensures r == [] <==> forall i :: 0 <= i < |wh| ==> !(wh[i].tdcId == t && wh[i].chnlId == c)
  {
    if wh == [] then []
    else
      var init := Occupants(wh[..|wh| - 1], t, c);
      var h := wh[|wh| - 1];
      if h.tdcId == t && h.chnlId == c then init + [h] else init
  }

  /** map_hits: TDCID -> CHNLID -> the hits there, in window order. */
  type HitIndex = map<int, map<int, seq<Hit>>>

  /** m indexes wh: a module is present exactly when a hit is on it, a channel of a
      present module exactly when a hit is on it, and each entry lists those hits. */
  ghost predicate IndexOf(m: HitIndex, wh: seq<Hit>) {
    && (forall t :: t in m <==> exists i :: 0 <= i < |wh| && wh[i].tdcId == t)
    && (forall t, c :: t in m ==> (c in m[t] <==> Occupants(wh, t, c) != []))
    && (forall t, c :: t in m && c in m[t] ==> m[t][c] == Occupants(wh, t, c))
  }

  /** The index entry a hit is appended to. */
  function AddHit(m: HitIndex, h: Hit): HitIndex {
    var byChannel := if h.tdcId in m then m[h.tdcId] else map[];
    var list := if h.chnlId in byChannel then byChannel[h.chnlId] else [];
    m[h.tdcId := byChannel[h.chnlId := list + [h]]]
  }

  lemma OccupantsSnoc(pre: seq<Hit>, h: Hit, t: int, c: int)
    ensures Occupants(pre + [h], t, c)
            == Occupants(pre, t, c) + (if h.tdcId == t && h.chnlId == c then [h] else [])
  {
    assert (pre + [h])[..|pre|] == pre;
  }

  /** After appending h, a module is in the index exactly when a hit of pre + [h] is on it. */
  lemma AddHitModules(m: HitIndex, pre: seq<Hit>, h: Hit, t: int)
    requires IndexOf(m, pre)
    ensures t in AddHit(m, h) <==> exists i :: 0 <= i < |pre + [h]| && (pre + [h])[i].tdcId == t
  {
    var wh := pre + [h];
    if t == h.tdcId {
      assert wh[|pre|] == h;
    } else if t in m {
      var i :| 0 <= i < |pre| && pre[i].tdcId == t;
      assert wh[i] == pre[i];
    } else {
      forall i | 0 <= i < |wh| ensures wh[i].tdcId != t {
        if i < |pre| { assert wh[i] == pre[i]; }
      }
    }
  }

  /** After appending h, the channels of a module in the index and their lists are those of
      pre + [h]. */
  lemma AddHitChannel(m: HitIndex, pre: seq<Hit>, h: Hit, t: int, c: int)
    requires IndexOf(m, pre) && t in AddHit(m, h)
    ensures c in AddHit(m, h)[t] <==> Occupants(pre + [h], t, c) != []
    ensures c in AddHit(m, h)[t] ==> AddHit(m, h)[t][c] == Occupants(pre + [h], t, c)
  {
    OccupantsSnoc(pre, h, t, c);
  }

  /** Appending a hit keeps the index exact. */
  lemma AddHitKeepsIndex(m: HitIndex, pre: seq<Hit>, h: Hit)
    requires IndexOf(m, pre)
    ensures IndexOf(AddHit(m, h), pre + [h])
  {
    var m' := AddHit(m, h);
    var wh := pre + [h];
    forall t ensures t in m' <==> exists i :: 0 <= i < |wh| && wh[i].tdcId == t {
      AddHitModules(m, pre, h, t);
    }
    forall t, c | t in m'
      ensures (c in m'[t] <==> Occupants(wh, t, c) != []) && (c in m'[t] ==> m'[t][c] == Occupants(wh, t, c))
    {
      AddHitChannel(m, pre, h, t, c);
    }
  }

  /** The indexing loop of lines 258-260. */
  method BuildIndex(wh: seq<Hit>) returns (m: HitIndex)
    ensures IndexOf(m, wh)
  {
    m := map[];
    var i := 0;
    while i < |wh|
      invariant 0 <= i <= |wh|
      invariant IndexOf(m, wh[..i])
    {
      var h := wh[i];
      assert wh[..i + 1] == wh[..i] + [h];
      AddHitKeepsIndex(m, wh[..i], h);
      var byChannel := if h.tdcId in m then m[h.tdcId] else map[];
      var list := if h.chnlId in byChannel then byChannel[h.chnlId] else [];
      m := m[h.tdcId := byChannel[h.chnlId := list + [h]]];
      i := i + 1;
    }
    assert wh[..i] == wh;
  }
}
