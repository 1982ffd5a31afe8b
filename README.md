# Drift-tube track reconstruction and even/odd track matching, modelled in Dafny

This project models two programs of a drift-tube muon chamber analysis.

**The track reconstruction (`main` of `muon_tracker_fixed.cpp`).** It reads a table of
timing hits and reconstructs six-tube straight tracks. Its stages:

- **Reading.** The header is split on commas and each name is trimmed. `find_col` looks
  columns up case-insensitively. The data rows are split, padded to the header width and
  parsed with `stoi`/`stod`; a row that does not parse is skipped.
- **Geometry.** A table of tube positions is built from a 24-channel base layout and 18
  module offsets.
- **Windows.** The trigger range is cut into half-open windows of 2000 ticks. The hits of
  each window are indexed by module and channel (`map_hits`).
- **Candidates.** Every six-hit candidate of 2 sign conventions × 9 module pairs × 8 base
  channels is formed from the index, in the source's loop order. Each is scored: the
  tangent-line fit, the residuals |a·x+b·y+c| − |r|, chi2/ndf = Σres²/3, and a cut at 50.
- **Per-window selection.** The best candidate per A_top hit is kept, one map entry per key.
- **Emission.** Each entry becomes a bundle of six output rows under a fresh track id.
- **Global deduplication.** The bundles are grouped again by track id and keyed on their
  first highest hit. The least chi2/ndf bundle per key is kept.

**The matcher (`match_even_odd` of `mat_tr.py`).** For each even track in turn, it takes the
still-available odd track whose slope and intercept differences are both within
tolerance and whose summed difference is smallest. It then marks that odd track used in
the caller's array.

The model keeps the source's imperative form:

- **Loops become `while`/`for` loops.** This covers the header, row, geometry, window,
  index, candidate, emission, grouping, selection and rebuild loops, and the matcher's
  chunk and index loops.
- **Each such method is proved against a specification function.** Examples: `ParseRows`,
  `IsGeometryTable`, `InWindow`, `IndexOf`, `FoldBest` over `WindowCands`, `EmittedRows`,
  `FoldBundles`, `Greedy`. The lemmas beside each function prove what the program
  promises.
- **`unordered_map` iteration is an arbitrary order.** The loops pick any remaining key
  (`:|`), and a ghost out-parameter records the order taken. Every property is proved for
  every such order.
- **`odd_available` is an `array<bool>`.** `MatchEvenOdd` updates it in place; its result
  is a fresh `array<int>`.

Observations the model proves, about the code as written (none changes behaviour):

- **The global pass keys on B_top, not `hA_top`.** Tube 5 (B_top) of every kept fit lies
  strictly above the other five (`Candidates.TopTubeIsHighest`). So the first highest row
  of every emitted bundle is row 5, and the global pass keys on B_top
  (`Tracker.DedupKeyIsBTop`). The comment at line 404 says the pass ensures "one best track
  per hA_top". The windows key on A_top (`Candidates.CandKey`).
- **The "middle" slot of iteration 2, base 0 is in the bottom row.** Iteration 2's offset
  7 makes it channel 7 (`Candidates.SlotRows`).
- **One fallback lookup is dead.** A column containing "drift_radius_mm" also contains
  "drift_radius", so the fallback of line 102 never finds anything
  (`Ingest.DriftRadiusMmFallbackIsDead`).
- **No two fits of a run share an A_top hit.** Each window's map has one entry per key, and
  the windows are disjoint (`Tracker.AllFitsDistinct`).
- **The pandas driver groups on `n_hits`.** The driver of `mat_tr.py` (lines 71-143; line 83)
  groups tracks on `n_hits`, not on the trigger window its comment names. It is not part of
  this model.

Files: `wrappers.dfy` (Option/Result), `hits.dfy` (records, constants, the numeric
collaborators), `ingest.dfy`, `geometry.dfy`, `windowing.dfy`, `candidates.dfy`,
`bundles.dfy`, `dedup.dfy`, `tracker.dfy` (the pipeline of `main`), `matcher.dfy`.

## Model

| member | source | states |
|---|---|---|
| Ingest.SplitAll | muon_tracker_fixed.cpp:69 | every line, the empty one included, splits into at least one field |
| Ingest.JoinSplitAll | muon_tracker_fixed.cpp:69 | splitting loses nothing: joining the fields with ',' gives back the line |
| Ingest.SplitAllNoComma | muon_tracker_fixed.cpp:69 | no field contains a comma |
| Ingest.LastFieldNonEmpty | muon_tracker_fixed.cpp:121 | a non-empty line not ending in ',' has a non-empty last field |
| Ingest.GetlineFieldsRoundTrip | muon_tracker_fixed.cpp:121 | for a line not ending in ',', the fields repeated getline yields are the split fields, rejoin to the line and hold no comma |
| Ingest.SplitFields | muon_tracker_fixed.cpp:121 | the character loop yields exactly the getline fields (a trailing empty field is dropped) |
| Ingest.Trim | muon_tracker_fixed.cpp:70-71 | the result is the input less its leading and trailing C-locale white space, with no white space at either end |
| Ingest.TrimUnique | muon_tracker_fixed.cpp:70-71 | a string has exactly one trimmed form |
| Ingest.ParseHeader | muon_tracker_fixed.cpp:66-74 | one name per header field, in order, each the trimmed field |
| Ingest.FirstMatch | muon_tracker_fixed.cpp:76-89 | the first index from i on whose lower-cased name matches the query, or -1 when none does |
| Ingest.ColumnOf | muon_tracker_fixed.cpp:75-91 | the first exact (case-insensitive) match wins; only when there is none, the first column containing the query; otherwise -1 |
| Ingest.FindCol | muon_tracker_fixed.cpp:75-91 | the two scans of find_col compute ColumnOf |
| Ingest.HasSubstring | muon_tracker_fixed.cpp:88 | the position scan answers exactly whether the query occurs in the name |
| Ingest.DriftRadiusMmFallbackIsDead | muon_tracker_fixed.cpp:101-102 | when "drift_radius" is not found, "drift_radius_mm" is not found either |
| Ingest.LocateColumns | muon_tracker_fixed.cpp:93-102 | the eight lookups and the fallbacks give ResolveColumns of the header |
| Ingest.RequiredColumnsIndexRows | muon_tracker_fixed.cpp:104-132 | once the corrected check passes, every field index the row parser uses lies inside a padded row |
| Ingest.RequiredCheckAsWrittenAdmitsMissingTime | muon_tracker_fixed.cpp:104 | a header without drift_time passes the check as written, leaves the drift_time index at -1, and fails the corrected check |
| Ingest.FiveColumnsFound | muon_tracker_fixed.cpp:93-97 | the five checked lookups all succeed on the five-column header |
| Ingest.NoDriftTimeColumn | muon_tracker_fixed.cpp:98 | the drift_time lookup returns -1 on the five-column header |
| Ingest.PadTokens | muon_tracker_fixed.cpp:122 | a short row is padded to the header width with empty fields; the existing fields are unchanged |
| Ingest.ParseRowsAppend | muon_tracker_fixed.cpp:115-138 | rows are parsed independently and in order: a bad line skips only itself |
| Ingest.ParseRowsCount | muon_tracker_fixed.cpp:115-138 | the hit count is the number of lines that parse, at most the number of lines |
| Ingest.ParseRowsSingleton | muon_tracker_fixed.cpp:123-137 | a line contributes its hit exactly when every field parses, and nothing otherwise |
| Ingest.ShortRowIsSkipped | muon_tracker_fixed.cpp:122-136 | a non-empty row too short to reach any of the eight columns the parser reads is padded with "" there and skipped, given that stoi and stod reject "" |
| Ingest.LoadHits | muon_tracker_fixed.cpp:115-138 | the data-line loop yields ParseRows of the lines |
| Geometry.PositionOf | muon_tracker_fixed.cpp:158-169 | a position exists exactly for modules 0..17 and channels 0..23 |
| Geometry.BuildGeometry | muon_tracker_fixed.cpp:158-169 | 18 rows of 24 entries, entry [tid][ch] = ((x_ch + dx_tid)·10, (y_ch + dy_tid)·10) |
| Geometry.LayerIsStaggered | muon_tracker_fixed.cpp:143-150 | the base layout: rows 2.6 cm apart from 1.5 cm, tubes 3 cm apart, the middle row shifted by half a tube |
| Geometry.PairIsStacked | muon_tracker_fixed.cpp:151-174 | pair p is modules (2p, 2p+1), side by side at x = −96 + 24p cm, the odd one 34.7 cm above the even one |
| Geometry.TubeHeight | muon_tracker_fixed.cpp:143-169 | a tube's height in mm is its row height plus 347 mm in the upper module |
| Windowing.MinTrigger | muon_tracker_fixed.cpp:229-233 | INT_MAX for no hits; otherwise a lower bound of all triggers that some hit attains |
| Windowing.MaxTrigger | muon_tracker_fixed.cpp:229-233 | INT_MIN for no hits; otherwise an upper bound of all triggers that some hit attains |
| Windowing.TriggerRange | muon_tracker_fixed.cpp:229-233 | the running min/max loop computes MinTrigger and MaxTrigger |
| Windowing.NoHitsAsWrittenMisfires | muon_tracker_fixed.cpp:234 | as written, one hit with triggerledge INT_MAX is reported as "no hits" |
| Windowing.RangeOfLoadedHits | muon_tracker_fixed.cpp:234-238 | with hits loaded, the range is non-empty and both ends are triggers of loaded hits |
| Windowing.WindowStarts | muon_tracker_fixed.cpp:244-245 | the starts are trigger_min + k·2000 for exactly the k whose start is at most trigger_max |
| Windowing.WindowStartsAsWrittenWrap | muon_tracker_fixed.cpp:245 | as written, the 32-bit step from INT_MAX−1999 wraps to INT_MIN, below the start, so the loop never exits for trigger_max = INT_MAX |
| Windowing.ExactlyOneWindow | muon_tracker_fixed.cpp:244-253 | every trigger of the range lies in exactly one window [w0, w0+2000) |
| Windowing.InWindow | muon_tracker_fixed.cpp:253 | the window's hits are hits of the table with w0 ≤ trigger < w1, and every such hit is among them |
| Windowing.WindowHits | muon_tracker_fixed.cpp:253 | the filtering loop yields InWindow |
| Windowing.Occupants | muon_tracker_fixed.cpp:259 | the hits on one module and channel are window hits there, and the list is empty exactly when no hit is there |
| Windowing.AddHitKeepsIndex | muon_tracker_fixed.cpp:259 | appending a hit to its slot keeps the index exact for the longer prefix |
| Windowing.BuildIndex | muon_tracker_fixed.cpp:256-260 | map_hits has a module exactly when a hit is on it, a channel exactly when a hit is there, and lists the hits in window order |
| Candidates.SecondSignsNegateFirst | muon_tracker_fixed.cpp:278-284 | the sign pattern of iteration 2 negates that of iteration 1 |
| Candidates.ComboAt | muon_tracker_fixed.cpp:286-296 | every combination the loops reach has an iteration 1..2, two distinct modules and a base 0..7 |
| Candidates.ComboAtIsPair | muon_tracker_fixed.cpp:286-288 | every combination is an even module with the odd module after it |
| Candidates.SlotChannelsInModule | muon_tracker_fixed.cpp:294-299 | every slot channel lies in 0..23 |
| Candidates.SlotRows | muon_tracker_fixed.cpp:279-296 | the bottom and top slots lie in the bottom and top rows; the middle slot in the middle row, except in iteration 2 at base 0, where it is in the bottom row |
| Candidates.ProductCount | muon_tracker_fixed.cpp:315-320 | the product has as many candidates as the product of the list lengths |
| Candidates.ProductMembers | muon_tracker_fixed.cpp:315-321 | every candidate of the product takes its k-th loop-order hit from the k-th list |
| Candidates.ComboCandsCount | muon_tracker_fixed.cpp:301-321 | a combination with an empty slot yields nothing; otherwise exactly the product of the six occupancy counts |
| Candidates.ComboCandsOnSlots | muon_tracker_fixed.cpp:304-321 | every candidate sits on its six slots, in tube order (A_bot, A_med, A_top, B_bot, B_med, B_top), from the window's hits |
| Candidates.MissingSlotNoCands | muon_tracker_fixed.cpp:289-302 | a module or slot missing from map_hits means the combination has no candidates |
| Candidates.IndexedSlotLists | muon_tracker_fixed.cpp:304-309 | with all six slots in map_hits, its lists are the slot lists and the loops enumerate the combination's candidates |
| Candidates.DistancePointLine | muon_tracker_fixed.cpp:224-226 | the distance is non-negative and is ±(a·x0 + b·y0 + c) |
| Candidates.SignedRadii | muon_tracker_fixed.cpp:330 | each radius carries the convention's sign and keeps its magnitude |
| Candidates.Evaluate | muon_tracker_fixed.cpp:322-345 | an accepted candidate has 0 ≤ chi2/ndf ≤ 50 and keeps its six tubes with six positions and residuals |
| Candidates.EvaluateMeaning | muon_tracker_fixed.cpp:322-345 | accepted exactly when every tube has a position, the fit succeeds and Σres²/3 ≤ 50; the line is the fit's; positions come from the table; residual i is the distance less the unsigned radius |
| Candidates.TubeCoordinates | muon_tracker_fixed.cpp:323-331 | the coordinate loop reads the positions from the pair's table rows and signs the radii |
| Candidates.ScoreLine | muon_tracker_fixed.cpp:336-342 | the residual loop yields the residuals and their sum of squares |
| Candidates.EvaluateCandidate | muon_tracker_fixed.cpp:322-345 | the per-candidate code computes Evaluate |
| Candidates.FoldBestKeys | muon_tracker_fixed.cpp:351-358 | the map's keys are exactly the A_top keys of the accepted candidates |
| Candidates.FoldBestMinimal | muon_tracker_fixed.cpp:351-358 | each key holds the fit of the earliest candidate of least chi2/ndf with that key |
| Candidates.OfferCandidate | muon_tracker_fixed.cpp:323-358 | scoring and the keyed replace-if-strictly-better update is one Offer |
| Candidates.OfferMedB | muon_tracker_fixed.cpp:320-359 | the B_med loop offers the candidates of its sub-product in order |
| Candidates.OfferInner | muon_tracker_fixed.cpp:319-360 | the B_bot and B_med loops offer their sub-product in order |
| Candidates.OfferMiddle | muon_tracker_fixed.cpp:317-361 | the A_bot and A_med loops offer their sub-product in order |
| Candidates.OfferOuter | muon_tracker_fixed.cpp:315-364 | the six nested loops offer the whole product in order |
| Candidates.OfferCombination | muon_tracker_fixed.cpp:294-364 | one combination offers exactly its candidates |
| Candidates.BestOfPair | muon_tracker_fixed.cpp:293-365 | the base loop offers the candidates of bases 0..7 |
| Candidates.BestOfIteration | muon_tracker_fixed.cpp:286-366 | the pair loop offers the candidates of the nine pairs |
| Candidates.BestOfWindow | muon_tracker_fixed.cpp:275-367 | the window's map is the fold of Offer over all its candidates in loop order |
| Candidates.TopSlotIsHighest | muon_tracker_fixed.cpp:143-174 | the top slot of the upper module is strictly above the other five slots |
| Candidates.SlotHeights | muon_tracker_fixed.cpp:323-331 | an accepted candidate's heights are those of its slots |
| Candidates.TopTubeIsHighest | muon_tracker_fixed.cpp:321-331 | tube 5 (B_top) of an accepted candidate is strictly above the other five |
| Candidates.BaseCandsProper | muon_tracker_fixed.cpp:293-321 | every candidate of a pair is on a stacked pair, on its slots, with window hits |
| Candidates.PairCandsProper | muon_tracker_fixed.cpp:286-321 | the same for every pair of an iteration |
| Candidates.IterCandsProper | muon_tracker_fixed.cpp:275-321 | the same for both iterations |
| Candidates.ProperCandFitIsGood | muon_tracker_fixed.cpp:321-349 | an accepted candidate of the window gives a good fit for its A_top key |
| Candidates.WindowBestIsGood | muon_tracker_fixed.cpp:262-367 | every fit a window keeps has six window hits on a stacked pair, its key's A_top hit, chi2/ndf in 0..50 and B_top highest |
| Candidates.WindowBestSelects | muon_tracker_fixed.cpp:347-358 | the window's keys are exactly the A_top keys of accepted candidates, each holding its earliest least-chi2/ndf candidate |
| Bundles.BundleRowsShape | muon_tracker_fixed.cpp:373-395 | the six rows share track id, line and chi2/ndf; row i carries tube i's hit, position, residual and trigger less the mean; the Dt values sum to 0 |
| Bundles.EmitBundle | muon_tracker_fixed.cpp:373-395 | the mean loop and the row loop produce the bundle's six rows |
| Bundles.EmittedRows | muon_tracker_fixed.cpp:369-399 | emitting n fits gives 6n rows |
| Bundles.EmittedRowsBlocks | muon_tracker_fixed.cpp:376-397 | row r is row r mod 6 of bundle r div 6, whose track id is id0 + r div 6 |
| Bundles.EmittedRowsAppend | muon_tracker_fixed.cpp:241-401 | emitting two runs of fits is emitting the first, then the second with ids continuing |
| Bundles.EmitWindow | muon_tracker_fixed.cpp:369-399 | every map entry is emitted once, in some order; track ids advance by the map size; the rows are those bundles in that order |
| Dedup.RowsOf | muon_tracker_fixed.cpp:418-420 | the rows of a track all carry its id |
| Dedup.RowsOfFilters | muon_tracker_fixed.cpp:418-420 | a track's rows are rows of the table, and there are none exactly when no row has that id |
| Dedup.GroupById | muon_tracker_fixed.cpp:417-420 | tracks_by_id has exactly the ids that occur, each with that track's rows in order |
| Dedup.TopIndex | muon_tracker_fixed.cpp:432-436 | the top hit has the greatest y, and every earlier hit is strictly lower |
| Dedup.TopHit | muon_tracker_fixed.cpp:432-436 | the arg-max loop finds TopIndex |
| Dedup.FoldBundlesKeys | muon_tracker_fixed.cpp:425-455 | the kept keys are exactly the top keys of the six-row bundles |
| Dedup.FoldBundlesBest | muon_tracker_fixed.cpp:445-454 | each kept bundle is an offered six-row bundle with its key and the least chi2/ndf among them |
| Dedup.OfferTrack | muon_tracker_fixed.cpp:426-454 | the loop body for one track is one OfferBundle |
| Dedup.SelectBest | muon_tracker_fixed.cpp:425-455 | the selection visits every track once, in some order, and folds OfferBundle over them; its keys are exactly the top keys of the six-row tracks |
| Dedup.AppendRows | muon_tracker_fixed.cpp:461-463 | the copy loop appends a bundle's rows |
| Dedup.Rebuild | muon_tracker_fixed.cpp:457-464 | filtered is the kept bundles concatenated, each once, in some order |
| Dedup.DistinctTracksFit | muon_tracker_fixed.cpp:457-467 | the bundles of distinct tracks together hold as many rows as carry those ids |
| Dedup.TrackRowsAreInputs | muon_tracker_fixed.cpp:457-464 | the rebuilt rows are rows of the input table |
| Dedup.KeptSize | muon_tracker_fixed.cpp:466-467 | six rows per kept track, and no more rows than the input |
| Dedup.SelectionKeepsInputs | muon_tracker_fixed.cpp:425-455 | in every order, each kept bundle is an unchanged six-row input bundle with its key |
| Dedup.SelectionCoversInputs | muon_tracker_fixed.cpp:425-455 | in every order, every six-row input bundle's key is kept, with a chi2/ndf no greater |
| Dedup.SelectFromRows | muon_tracker_fixed.cpp:417-455 | grouping and selection keep a selection over the input bundles |
| Dedup.TracksOfKept | muon_tracker_fixed.cpp:457-464 | the rebuilt entries are the bundles of distinct tracks with distinct keys |
| Dedup.KeptCovers | muon_tracker_fixed.cpp:457-464 | every input key is the key of a rebuilt bundle |
| Dedup.KeptIsMinimal | muon_tracker_fixed.cpp:445-464 | a rebuilt bundle has the least chi2/ndf among the six-row input bundles with its key |
| Dedup.GlobalDedup | muon_tracker_fixed.cpp:406-470 | the output is unchanged six-row input bundles of distinct tracks with distinct keys, covering every input key, each of least chi2/ndf, 6 rows per bundle, no more rows than the input, and every output row an input row |
| Tracker.ReadHits | muon_tracker_fixed.cpp:59-138 | an empty file or missing columns (corrected check) fails; otherwise the hits are ParseRows of the data lines under the trimmed header |
| Tracker.ProcessWindow | muon_tracker_fixed.cpp:248-399 | a window's rows are the bundles of the map WindowKept computes, under consecutive ids |
| Tracker.ProcessWindows | muon_tracker_fixed.cpp:240-401 | the window loop emits the maps of all windows in order, with track ids from 0 |
| Tracker.TrackWindows | muon_tracker_fixed.cpp:142-401 | from geometry to emission: window starts cover the range; rows are the emitted maps |
| Tracker.Run | muon_tracker_fixed.cpp:59-470 | the early exits (empty file, missing columns, no hits); otherwise the deduplicated rows of the emitted bundles of all windows |
| Tracker.HitInExactlyOneWindow | muon_tracker_fixed.cpp:244-253 | every loaded hit lies in exactly one window |
| Tracker.WindowKeptGood | muon_tracker_fixed.cpp:253-367 | an entry a window keeps is a good fit of that window, with its A_top hit inside it |
| Tracker.WindowMapsGood | muon_tracker_fixed.cpp:247-367 | the same holds for every window's map |
| Tracker.FitInSomeWindow | muon_tracker_fixed.cpp:247-401 | every emitted fit is a good fit of the window its A_top hit lies in |
| Tracker.AllFitsInWindows | muon_tracker_fixed.cpp:247-401 | every fit of the run is a good fit of one of the windows |
| Tracker.FitKeysDiffer | muon_tracker_fixed.cpp:247-401 | two fits of the run have different A_top hits |
| Tracker.AllFitsDistinct | muon_tracker_fixed.cpp:247-401 | no two fits of the run share an A_top hit |
| Tracker.EmittedTrack | muon_tracker_fixed.cpp:379-397 | the rows with track id id0 + i are exactly the bundle of the i-th fit |
| Tracker.EmittedNoTrack | muon_tracker_fixed.cpp:379-397 | no row carries an id outside the ids assigned |
| Tracker.DedupKeyIsBTop | muon_tracker_fixed.cpp:432-442 | when tube 5 is highest, the global pass takes row 5 as top hit and keys the bundle on B_top |
| Matcher.ScanRange | mat_tr.py:40-57 | the scan keeps the best so far unless a later index in range scores strictly lower |
| Matcher.Pick | mat_tr.py:33-57 | the pick is -1 or an index of an odd track |
| Matcher.ChunkedScanIsSingleScan | mat_tr.py:36-40 | for every chunk size > 0, the chunked scan equals one scan over 0..No−1 |
| Matcher.ScanRangeMinimal | mat_tr.py:33-57 | -1 when no eligible odd track scores below 1e18; otherwise an eligible index of least score, every earlier eligible index scoring strictly more |
| Matcher.Greedy | mat_tr.py:27-31 | one entry per even track; the availability keeps its length |
| Matcher.GreedyPrefix | mat_tr.py:31-62 | processing later even tracks never changes an earlier match |
| Matcher.GreedyChoice | mat_tr.py:31-62 | entry i is the pick for track i against the availability it sees |
| Matcher.GreedyAccounts | mat_tr.py:42-62 | availability equals "available at start and not matched"; matches are odd indices available at the start, one-to-one |
| Matcher.GreedyInRange | mat_tr.py:27-61 | every entry is -1 or an index in [0, No) available at the start |
| Matcher.GreedyFinalAvail | mat_tr.py:42-62 | on return odd_available is false exactly at the matched or initially unavailable indices; no odd index is matched twice |
| Matcher.GreedyWithinTolerance | mat_tr.py:45-51 | every match has abs(Δa) < a_tol and abs(Δb) < b_tol |
| Matcher.GreedyMinimal | mat_tr.py:33-57 | a match minimises da+db over the odd tracks eligible at its turn, ties to the lowest index |
| Matcher.GreedyUnmatched | mat_tr.py:31-63 | for chunk size > 0, entry i is -1 exactly when no odd track eligible at its turn scores below 1e18 |
| Matcher.GreedyUnmatchedIffNoneEligible | mat_tr.py:31-63 | when a_tol + b_tol ≤ 1e18, entry i is -1 exactly when no available odd track is within both tolerances |
| Matcher.GreedyNegativeChunk | mat_tr.py:36 | with a negative chunk size the chunk range is empty: all -1, availability unchanged |
| Matcher.ChooseOdd | mat_tr.py:33-57 | the chunk and index loops find Pick against the array's current contents |
| Matcher.MatchEvenOdd | mat_tr.py:21-64 | match_idx is a new array of Ne entries equal to Greedy's matches; odd_available ends as Greedy's availability |

## Left out

- File handling is left out: opening the input, splitting it into lines, and writing the output CSV and its number formatting (lines 52-57, 472-485). `Tracker.Run` takes the file's lines and returns the rows it would write.
- Console and error logging (`cout`/`cerr`) is left out; the early exits are modelled as `Failure` values.
- The numerics of `fit_tangent_line` (lines 177-222) are left out. The Gaussian elimination, its 1e-12 and 1e-15 thresholds and the `sqrt` normalisation are a function parameter returning an optional line.
- The internals of `stoi` and `stod` are left out. They are parameters that succeed with a value or fail; `Ingest.ShortRowIsSkipped` assumes that both reject "".
- Floating-point rounding is not modelled: coordinates, radii, residuals, chi2/ndf, `tavg` and the matcher's differences are `real`.
- NaN and the infinities are not modelled, though `stod` accepts "nan" and "inf" (lines 129-132). What is lost: a NaN drift radius gives a NaN chi2/ndf. That value passes the cut, because `chi2ndf > CHI2NDF_CUT` is false (line 345). Once stored under a key it is never replaced, because `chi2ndf < NaN` is false (line 352), so it blocks every later fit with the same A_top key. The global pass keeps such a bundle in the same way (lines 445-454). Likewise NaN or infinite slopes and intercepts in the matcher are not modelled.
- The window end `w1 = w0 + WINDOW_SIZE` (line 249) also overflows `int` when w0 > INT_MAX − 2000. That is undefined behaviour; with wrap-around it would leave the hits of that window out. The model computes it without wrap-around, as the corrected window loop of the second finding implies.
- The windows' `track_id` counter is an unbounded `int`. Its 32-bit overflow after 2^31 bundles is not modelled.
- `map_hits` and the bundles hold `Hit` values instead of pointers (`const Hit*`). Hits are immutable after loading, so no aliasing is lost.
- The deduplication key is the tuple (TDCID, CHNLID, eventid, triggerledge), not the string the program builds from it. The '_'-joined decimal string is injective on such tuples.
- Matcher.MatchEvenOdd: the input arrays `a_e`, `b_e`, `a_o`, `b_o` are read-only sequences. The requires on their lengths and on `odd_available` hold at the only call site (`mat_tr.py`, lines 92-97). The compiled function (`@njit`, line 21) does not check them, so a shorter array would be read or written out of bounds, which the model does not describe.
- Matcher.Pick: a chunk size of 0, for which Python's `range` raises, is treated like a negative one (no chunks, no match).
- Matcher.GreedyUnmatchedIffNoneEligible: the "unmatched exactly when no odd track is within tolerance" property holds only when a_tol + b_tol ≤ 1e18. Above that, a candidate scoring 1e18 or more is never taken, which `Matcher.GreedyUnmatched` states for all inputs.
- The pandas driver of `mat_tr.py` (lines 71-143) is left out, and so are the other scripts and ROOT macros of the repository: histogramming, curve fitting and plotting.

## Findings

| source | as written | input that shows it | evidently intended | confidence | as-written member | corrected member |
|---|---|---|---|---|---|---|
| muon_tracker_fixed.cpp:104 | the required-column check omits drift_time, corr_time and adc_time, yet lines 130-132 index the tokens with their lookups | header `tdcid,chnlid,eventid,triggerledge,drift_radius`: the check passes; drift_time resolves to -1, and line 130 converts -1.0 to `size_t` to index `tokens`: an out-of-range index (undefined behaviour) | all eight fields the parser reads are required | not executed | Ingest.RequiredCheckAsWrittenAdmitsMissingTime | Tracker.ReadHits |
| muon_tracker_fixed.cpp:245 | the window start advances with `w += WINDOW_SIZE` on a 32-bit `int` | trigger_min = INT_MAX − 1999 and trigger_max = INT_MAX: the next start overflows a signed `int`, which is undefined behaviour; with wrap-around arithmetic it becomes INT_MIN ≤ trigger_max, so the loop never ends | starts trigger_min + k·2000 for the k with start ≤ trigger_max, then stop | not executed | Windowing.WindowStartsAsWrittenWrap | Windowing.WindowStarts |
| muon_tracker_fixed.cpp:234 | "no hits" is tested as `trigger_min == INT_MAX` | a table of one hit with triggerledge 2147483647: the run stops with "No hits found" | stop only when no hit was loaded | not executed | Windowing.NoHitsAsWrittenMisfires | Windowing.RangeOfLoadedHits |
