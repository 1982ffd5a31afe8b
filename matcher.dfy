/**
 * The greedy even/odd track matcher of the pairing script: every even
 * track, in order, takes the still-available odd track whose slope and
 * intercept are both within tolerance and whose summed distance is the
 * smallest (the first such index on a tie), and marks it used in the
 * caller's availability array.
 *
 * The floating-point inputs are modelled as `real`; the scan's sentinel
 * score 1e18 is kept, so a candidate whose score reaches it is never chosen.
 */
module Matcher {

  /** The sentinel "large number" the best score starts from. */
  const BigScore: real := 1000000000000000000.0

  function Abs(x: real): (r: real)
    ensures r >= 0.0 && (r == x || r == -x)
  {
    if x < 0.0 then -x else x
  }

  function Min(x: int, y: int): (r: int)
    ensures r <= x && r <= y && (r == x || r == y)
  {
    if x <= y then x else y
  }

  /** The read-only inputs: slopes and intercepts of the even and the odd tracks, and the tolerances. */
  datatype Setup = Setup(aE: seq<real>, bE: seq<real>, aO: seq<real>, bO: seq<real>, aTol: real, bTol: real)

  /** The intercept arrays are at least as long as the slope arrays, whose lengths fix the counts. */
  predicate Sized(s: Setup) {
    |s.bE| >= |s.aE| && |s.bO| >= |s.aO|
  }

  /** An availability state covers every odd track. */
  predicate Covers(s: Setup, av: seq<bool>) {
    |av| >= |s.aO|
  }

  function DeltaA(s: Setup, i: int, j: int): real
    requires Sized(s) && 0 <= i < |s.aE| && 0 <= j < |s.aO|
  {
    Abs(s.aE[i] - s.aO[j])
  }

  function DeltaB(s: Setup, i: int, j: int): real
    requires Sized(s) && 0 <= i < |s.aE| && 0 <= j < |s.aO|
  {
    Abs(s.bE[i] - s.bO[j])
  }

  function Score(s: Setup, i: int, j: int): real
    requires Sized(s) && 0 <= i < |s.aE| && 0 <= j < |s.aO|
  {
    DeltaA(s, i, j) + DeltaB(s, i, j)
  }

  /** Odd track j is still available and within both tolerances of even track i. */
  predicate Eligible(s: Setup, av: seq<bool>, i: int, j: int)
    requires Sized(s) && Covers(s, av) && 0 <= i < |s.aE| && 0 <= j < |s.aO|
  {
    av[j] && DeltaA(s, i, j) < s.aTol && DeltaB(s, i, j) < s.bTol
  }

  /** The best index found so far and its score. */
  datatype Best = Best(j: int, score: real)

  const Init: Best := Best(-1, BigScore)

  /** One candidate of the scan: it replaces the best only with a strictly lower score. */
  function Consider(s: Setup, av: seq<bool>, i: int, acc: Best, j: int): Best
    requires Sized(s) && Covers(s, av) && 0 <= i < |s.aE| && 0 <= j < |s.aO|
  {
    if Eligible(s, av, i, j) && Score(s, i, j) < acc.score then Best(j, Score(s, i, j)) else acc
  }

  /** The scan of the odd indices lo, ..., hi - 1 in increasing order, starting from acc. */
  function ScanRange(s: Setup, av: seq<bool>, i: int, lo: int, hi: int, acc: Best): (r: Best)
    requires Sized(s) && Covers(s, av) && 0 <= i < |s.aE| && 0 <= lo <= hi <= |s.aO|
    ensures r == acc || (lo <= r.j < hi && r.score < acc.score)
    decreases hi - lo
  {
    if hi == lo then acc else Consider(s, av, i, ScanRange(s, av, i, lo, hi - 1, acc), hi - 1)
  }

  /** The odd track chosen for even track i; a non-positive chunk size gives an empty scan. */
  function Pick(s: Setup, av: seq<bool>, i: int, chunkSize: int): (j: int)
    requires Sized(s) && Covers(s, av) && 0 <= i < |s.aE|
    ensures j == -1 || 0 <= j < |s.aO|
  {
    if chunkSize > 0 then ScanRange(s, av, i, 0, |s.aO|, Init).j else -1
  }

  /** The chunk-by-chunk scan as the source arranges it: chunks [start, start + chunkSize) up to the end. */
  function ChunkedScan(s: Setup, av: seq<bool>, i: int, start: int, chunkSize: int, acc: Best): Best
    requires Sized(s) && Covers(s, av) && 0 <= i < |s.aE| && 0 <= start && chunkSize > 0
    decreases |s.aO| - start
  {
    if start >= |s.aO| then acc
    else ChunkedScan(s, av, i, start + chunkSize, chunkSize,
                     ScanRange(s, av, i, start, Min(start + chunkSize, |s.aO|), acc))
  }

  /** Scanning [lo, mid) and then [mid, hi) is scanning [lo, hi). */
  lemma {:induction false} ScanRangeSplit(s: Setup, av: seq<bool>, i: int, lo: int, mid: int, hi: int, acc: Best)
    requires Sized(s) && Covers(s, av) && 0 <= i < |s.aE| && 0 <= lo <= mid <= hi <= |s.aO|
    ensures ScanRange(s, av, i, mid, hi, ScanRange(s, av, i, lo, mid, acc)) == ScanRange(s, av, i, lo, hi, acc)
    decreases hi - mid
  {
    if hi > mid {
      ScanRangeSplit(s, av, i, lo, mid, hi - 1, acc);
    }
  }

  /** For every positive chunk size, the chunked scan is the single scan over all odd indices. */
  lemma {:induction false} ChunkedScanIsSingleScan(s: Setup, av: seq<bool>, i: int, start: int, chunkSize: int, acc: Best)
    requires Sized(s) && Covers(s, av) && 0 <= i < |s.aE| && 0 <= start <= |s.aO| && chunkSize > 0
    ensures ChunkedScan(s, av, i, start, chunkSize, acc) == ScanRange(s, av, i, start, |s.aO|, acc)
    decreases |s.aO| - start
  {
    if start < |s.aO| {
      var end := Min(start + chunkSize, |s.aO|);
      var acc' := ScanRange(s, av, i, start, end, acc);
      ScanRangeSplit(s, av, i, start, end, |s.aO|, acc);
      if end < |s.aO| {
        ChunkedScanIsSingleScan(s, av, i, end, chunkSize, acc');
      } else {
        assert ChunkedScan(s, av, i, start + chunkSize, chunkSize, acc') == acc';
      }
    }
  }

  /** The whole scan from the sentinel: the chosen index is eligible, below the sentinel and
      strictly better than every eligible index before it and no worse than every one after it;
      with no index chosen, no eligible index scores below the sentinel. */
  lemma {:induction false} ScanRangeMinimal(s: Setup, av: seq<bool>, i: int, hi: int)
    requires Sized(s) && Covers(s, av) && 0 <= i < |s.aE| && 0 <= hi <= |s.aO|
    ensures var r := ScanRange(s, av, i, 0, hi, Init);
      && (r.j == -1 ==>
            (&& r.score == BigScore
             && forall j :: 0 <= j < hi && Eligible(s, av, i, j) ==> Score(s, i, j) >= BigScore))
      && (r.j != -1 ==>
            (&& 0 <= r.j < hi && Eligible(s, av, i, r.j)
             && r.score == Score(s, i, r.j) && r.score < BigScore
             && (forall j :: 0 <= j < r.j && Eligible(s, av, i, j) ==> Score(s, i, j) > r.score)
             && (forall j :: r.j < j < hi && Eligible(s, av, i, j) ==> Score(s, i, j) >= r.score)))
  {
    if hi > 0 {
      ScanRangeMinimal(s, av, i, hi - 1);
    }
  }

  /** The matches of the even tracks processed so far and the availability they leave. */
  datatype Outcome = Outcome(matches: seq<int>, avail: seq<bool>)

  /** The outer loop over the first n even tracks. */
  function Greedy(s: Setup, av0: seq<bool>, chunkSize: int, n: int): (o: Outcome)
    requires Sized(s) && Covers(s, av0) && 0 <= n <= |s.aE|
    ensures |o.matches| == n && |o.avail| == |av0|
    decreases n
  {
    if n == 0 then Outcome([], av0)
    else
      var o := Greedy(s, av0, chunkSize, n - 1);
      var j := Pick(s, o.avail, n - 1, chunkSize);
      if j >= 0 then Outcome(o.matches + [j], o.avail[j := false])
      else Outcome(o.matches + [-1], o.avail)
  }

  /** The availability an even track sees when its turn comes. */
  function AvailAt(s: Setup, av0: seq<bool>, chunkSize: int, i: int): (av: seq<bool>)
    requires Sized(s) && Covers(s, av0) && 0 <= i <= |s.aE|
    ensures Covers(s, av)
  {
    Greedy(s, av0, chunkSize, i).avail
  }

  /** Processing more even tracks never changes an earlier match. */
  lemma {:induction false} GreedyPrefix(s: Setup, av0: seq<bool>, chunkSize: int, n: int, i: int)
    requires Sized(s) && Covers(s, av0) && 0 <= i <= n <= |s.aE|
    ensures Greedy(s, av0, chunkSize, n).matches[..i] == Greedy(s, av0, chunkSize, i).matches
    decreases n
  {
    if n > i {
      GreedyPrefix(s, av0, chunkSize, n - 1, i);
      var m := Greedy(s, av0, chunkSize, n).matches;
      assert m[..n - 1] == Greedy(s, av0, chunkSize, n - 1).matches;
      assert m[..i] == m[..n - 1][..i];
    } else {
      assert Greedy(s, av0, chunkSize, n).matches[..n] == Greedy(s, av0, chunkSize, n).matches;
    }
  }

  /** Entry i of the result is the pick for even track i against the availability it sees. */
  lemma GreedyChoice(s: Setup, av0: seq<bool>, chunkSize: int, n: int, i: int)
    requires Sized(s) && Covers(s, av0) && 0 <= i < n <= |s.aE|
    ensures Greedy(s, av0, chunkSize, n).matches[i] == Pick(s, AvailAt(s, av0, chunkSize, i), i, chunkSize)
  {
    GreedyPrefix(s, av0, chunkSize, n, i + 1);
    assert Greedy(s, av0, chunkSize, n).matches[i] == Greedy(s, av0, chunkSize, n).matches[..i + 1][i];
  }

  /** The availability state av agrees with the matches m made from the initial state av0: an odd
      track is available exactly when it was at the start and nobody took it, and every odd track
      taken lies below bound and was available at the start. */
  predicate Accounts(av0: seq<bool>, bound: int, m: seq<int>, av: seq<bool>) {
    && |av| == |av0| && bound <= |av0|
    && (forall j :: 0 <= j < |av0| ==> av[j] == (av0[j] && j !in m))
    && (forall j :: j in m && j != -1 ==> 0 <= j < bound && av0[j])
  }

  /** No odd track occurs twice among the matches. */
  predicate OneToOne(m: seq<int>) {
    forall i1, i2 :: 0 <= i1 < i2 < |m| && m[i1] != -1 ==> m[i1] != m[i2]
  }

  /** The pick is -1 or an odd track available in the state it was made from. */
  lemma PickIsAvailable(s: Setup, av: seq<bool>, i: int, chunkSize: int)
    requires Sized(s) && Covers(s, av) && 0 <= i < |s.aE|
    ensures var j := Pick(s, av, i, chunkSize); j == -1 || (0 <= j < |s.aO| && av[j])
  {
    if chunkSize > 0 {
      ScanRangeMinimal(s, av, i, |s.aO|);
    }
  }

  /** Taking an available odd track (or none) keeps the state accounted for and the matches one-to-one. */
  lemma TakeStep(av0: seq<bool>, bound: int, m: seq<int>, av: seq<bool>, j: int)
    requires Accounts(av0, bound, m, av)
    requires j == -1 || (0 <= j < bound && av[j])
    ensures Accounts(av0, bound, m + [j], if j >= 0 then av[j := false] else av)
    ensures OneToOne(m) ==> OneToOne(m + [j])
  {
    var m' := m + [j];
    forall j' | j' in m' && j' != -1 ensures 0 <= j' < bound && av0[j'] {
      if j' != j { assert j' in m; }
    }
    if j != -1 {
      assert av[j] == (av0[j] && j !in m);
    }
    if OneToOne(m) {
      forall i1, i2 | 0 <= i1 < i2 < |m'| && m'[i1] != -1 ensures m'[i1] != m'[i2] {
        assert m'[i1] == m[i1];
        if i2 < |m| {
          assert m'[i2] == m[i2];
        } else {
          assert m[i1] in m;
        }
      }
    }
  }

  /** After n even tracks, the availability is accounted for by the matches, which are one-to-one:
      no odd track is matched to two even tracks. */
  lemma {:induction false} GreedyAccounts(s: Setup, av0: seq<bool>, chunkSize: int, n: int)
    requires Sized(s) && Covers(s, av0) && 0 <= n <= |s.aE|
    ensures var o := Greedy(s, av0, chunkSize, n); Accounts(av0, |s.aO|, o.matches, o.avail) && OneToOne(o.matches)
    decreases n
  {
    if n > 0 {
      GreedyAccounts(s, av0, chunkSize, n - 1);
      var p := Greedy(s, av0, chunkSize, n - 1);
      PickIsAvailable(s, p.avail, n - 1, chunkSize);
      TakeStep(av0, |s.aO|, p.matches, p.avail, Pick(s, p.avail, n - 1, chunkSize));
    }
  }

  /** Every entry is -1 or an odd index, and every matched odd track was available at the start. */
  lemma GreedyInRange(s: Setup, av0: seq<bool>, chunkSize: int, n: int)
    requires Sized(s) && Covers(s, av0) && 0 <= n <= |s.aE|
    ensures forall i :: 0 <= i < n ==>
      var j := Greedy(s, av0, chunkSize, n).matches[i]; j == -1 || (0 <= j < |s.aO| && av0[j])
  {
    GreedyAccounts(s, av0, chunkSize, n);
    var m := Greedy(s, av0, chunkSize, n).matches;
    forall i | 0 <= i < n ensures m[i] == -1 || (0 <= m[i] < |s.aO| && av0[m[i]]) {
      assert m[i] in m;
    }
  }

  /** On return, an odd track is unavailable exactly when it was unavailable at the start or some even
      track took it; no odd track is taken twice. */
  lemma GreedyFinalAvail(s: Setup, av0: seq<bool>, chunkSize: int, n: int)
    requires Sized(s) && Covers(s, av0) && 0 <= n <= |s.aE|
    ensures var o := Greedy(s, av0, chunkSize, n);
      && (forall j :: 0 <= j < |av0| ==> o.avail[j] == (av0[j] && j !in o.matches))
      && (forall i1, i2 :: 0 <= i1 < i2 < n && o.matches[i1] != -1 ==> o.matches[i1] != o.matches[i2])
  {
    GreedyAccounts(s, av0, chunkSize, n);
  }

  /** Every match is within both tolerances. */
  lemma GreedyWithinTolerance(s: Setup, av0: seq<bool>, chunkSize: int, n: int, i: int)
    requires Sized(s) && Covers(s, av0) && 0 <= i < n <= |s.aE|
    requires Greedy(s, av0, chunkSize, n).matches[i] != -1
    ensures var j := Greedy(s, av0, chunkSize, n).matches[i];
      0 <= j < |s.aO| && DeltaA(s, i, j) < s.aTol && DeltaB(s, i, j) < s.bTol
  {
    GreedyChoice(s, av0, chunkSize, n, i);
    ScanRangeMinimal(s, AvailAt(s, av0, chunkSize, i), i, |s.aO|);
  }

  /** The odd track matched to even track i minimises the score over the odd tracks eligible when
      i is processed, and among equal scores it is the lowest index. */
  lemma GreedyMinimal(s: Setup, av0: seq<bool>, chunkSize: int, n: int, i: int)
    requires Sized(s) && Covers(s, av0) && 0 <= i < n <= |s.aE|
    requires Greedy(s, av0, chunkSize, n).matches[i] != -1
    ensures var j := Greedy(s, av0, chunkSize, n).matches[i];
      var av := AvailAt(s, av0, chunkSize, i);
      && 0 <= j < |s.aO| && Eligible(s, av, i, j)
      && (forall j' :: 0 <= j' < |s.aO| && Eligible(s, av, i, j') ==> Score(s, i, j) <= Score(s, i, j'))
      && (forall j' :: 0 <= j' < j && Eligible(s, av, i, j') ==> Score(s, i, j) < Score(s, i, j'))
  {
    GreedyChoice(s, av0, chunkSize, n, i);
    ScanRangeMinimal(s, AvailAt(s, av0, chunkSize, i), i, |s.aO|);
  }

  /** With a positive chunk size, even track i stays unmatched exactly when no odd track eligible at
      its turn scores below the sentinel. */
  lemma GreedyUnmatched(s: Setup, av0: seq<bool>, chunkSize: int, n: int, i: int)
    requires Sized(s) && Covers(s, av0) && 0 <= i < n <= |s.aE| && chunkSize > 0
    ensures var av := AvailAt(s, av0, chunkSize, i);
      Greedy(s, av0, chunkSize, n).matches[i] == -1 <==>
      forall j :: 0 <= j < |s.aO| && Eligible(s, av, i, j) ==> Score(s, i, j) >= BigScore
  {
    GreedyChoice(s, av0, chunkSize, n, i);
    ScanRangeMinimal(s, AvailAt(s, av0, chunkSize, i), i, |s.aO|);
  }

  /** When the tolerances sum to at most the sentinel, a track stays unmatched exactly when no odd
      track is eligible at its turn. */
  lemma GreedyUnmatchedIffNoneEligible(s: Setup, av0: seq<bool>, chunkSize: int, n: int, i: int)
    requires Sized(s) && Covers(s, av0) && 0 <= i < n <= |s.aE| && chunkSize > 0
    requires s.aTol + s.bTol <= BigScore
    ensures var av := AvailAt(s, av0, chunkSize, i);
      Greedy(s, av0, chunkSize, n).matches[i] == -1 <==>
      forall j :: 0 <= j < |s.aO| ==> !Eligible(s, av, i, j)
  {
    GreedyUnmatched(s, av0, chunkSize, n, i);
  }

  /** A negative chunk size gives an empty range of chunks: nothing is matched and nothing is used. */
  lemma {:induction false} GreedyNegativeChunk(s: Setup, av0: seq<bool>, chunkSize: int, n: int)
    requires Sized(s) && Covers(s, av0) && 0 <= n <= |s.aE| && chunkSize < 0
    ensures Greedy(s, av0, chunkSize, n) == Outcome(seq(n, _ => -1), av0)
    decreases n
  {
    if n > 0 {
      GreedyNegativeChunk(s, av0, chunkSize, n - 1);
    }
  }

  /** The inner scans for even track i: chunk by chunk, then index by index within the chunk. */
  method ChooseOdd(aE: seq<real>, bE: seq<real>, aO: seq<real>, bO: seq<real>, oddAvailable: array<bool>,
                   aTol: real, bTol: real, i: int, chunkSize: int) returns (bestJ: int)
    requires |bE| >= |aE| && |bO| >= |aO| && oddAvailable.Length >= |aO| && 0 <= i < |aE|
    ensures bestJ == Pick(Setup(aE, bE, aO, bO, aTol, bTol), oddAvailable[..], i, chunkSize)
  {
    ghost var s := Setup(aE, bE, aO, bO, aTol, bTol);
    ghost var av := oddAvailable[..];
    var no := |aO|;
    bestJ := -1;
    var bestScore := BigScore;
    // A non-positive step leaves the range of chunk starts empty.
    var start := 0;
    while 0 < chunkSize && start < no
      invariant 0 <= start && (chunkSize <= 0 ==> start == 0)
      invariant Best(bestJ, bestScore) == ScanRange(s, av, i, 0, Min(start, no), Init)
      decreases no - start
    {
      var end := Min(start + chunkSize, no);
      for local := start to end
        invariant Best(bestJ, bestScore) == ScanRange(s, av, i, 0, local, Init)
      {
        if !oddAvailable[local] {
          continue;
        }
        var da := Abs(aE[i] - aO[local]);
        if da >= aTol {
          continue;
        }
        var db := Abs(bE[i] - bO[local]);
        if db >= bTol {
          continue;
        }
        var score := da + db;
        if score < bestScore {
          bestScore := score;
          bestJ := local;
        }
      }
      start := start + chunkSize;
    }
    assert chunkSize > 0 ==> Min(start, no) == no;
  }

  /** The matcher: one entry per even track, and the chosen odd tracks marked unavailable in place. */
  method MatchEvenOdd(aE: seq<real>, bE: seq<real>, aO: seq<real>, bO: seq<real>, oddAvailable: array<bool>,
                      aTol: real, bTol: real, chunkSize: int) returns (matchIdx: array<int>)
    requires |bE| >= |aE| && |bO| >= |aO| && oddAvailable.Length >= |aO|
    modifies oddAvailable
    ensures fresh(matchIdx) && matchIdx.Length == |aE|
    ensures matchIdx[..] == Greedy(Setup(aE, bE, aO, bO, aTol, bTol), old(oddAvailable[..]), chunkSize, |aE|).matches
    ensures oddAvailable[..] == Greedy(Setup(aE, bE, aO, bO, aTol, bTol), old(oddAvailable[..]), chunkSize, |aE|).avail
  {
    ghost var s := Setup(aE, bE, aO, bO, aTol, bTol);
    ghost var av0 := oddAvailable[..];
    var ne := |aE|;
    matchIdx := new int[ne](_ => -1);
    for i := 0 to ne
      invariant matchIdx[..i] == Greedy(s, av0, chunkSize, i).matches
      invariant forall k :: i <= k < ne ==> matchIdx[k] == -1
      invariant oddAvailable[..] == Greedy(s, av0, chunkSize, i).avail
    {
      var bestJ := ChooseOdd(aE, bE, aO, bO, oddAvailable, aTol, bTol, i, chunkSize);
      if bestJ >= 0 {
        matchIdx[i] := bestJ;
        oddAvailable[bestJ] := false;
      }
      assert matchIdx[..i + 1] == matchIdx[..i] + [matchIdx[i]];
    }
    assert matchIdx[..ne] == matchIdx[..];
  }
}
